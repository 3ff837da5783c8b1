/** The objects of sprite.py: `Sprite`, whose `move` and speed setter update
    its fields in place, the `Sprites` factory, and the demo `App`, whose
    `update` keeps two wrapping counters and steers the selected sprite.
    Each method is proved to follow the value-level functions of
    SpriteSheet and of this module; the keys pyxel reports and the choices
    `randrange` makes are parameters. */
module SpriteDemo {
  import opened Backend
  import opened SpritePosition
  import opened SpriteSheet

  class Sprite {
    const layout: Layout
    var pos: Position
    var state: int
    var lastMove: MoveVector
    var speed: int

    /** The changing fields as a value. */
    function Snapshot(): SpriteState
      reads this
    {
      SpriteState(pos, state, lastMove, speed)
    }

    /** `__init__`: walk frame 0, facing down, speed 1. */
    constructor (layout: Layout, pos: Position)
      ensures this.layout == layout
      ensures Snapshot() == InitialSprite(pos)
    {
      this.layout := layout;
      this.pos := pos;
      state := 0;
      lastMove := MoveDown;
      speed := 1;
    }

    /** `move`. */
    method Move(mv: MoveVector)
      modifies this
      ensures Snapshot() == Step(old(Snapshot()), mv)
    {
      state := (state + 1) % 2;
      lastMove := mv;
      pos := pos.Add(Vector(mv).Scale(speed));
    }

    /** The `speed` setter: any integer is accepted, zero and negative ones
        included. */
    method SetSpeed(v: int)
      modifies this
      ensures Snapshot() == old(Snapshot()).(speed := v)
    {
      speed := v;
    }

    /** `draw`: the blit it issues. */
    method Draw() returns (c: DrawCmd)
      ensures c == Blit(layout, Snapshot())
    {
      var u := IndexFor(layout, lastMove) + layout.width * state;
      var w := if lastMove == MoveLeft then -layout.width else layout.width;
      c := Blt(pos.x, pos.y, layout.imageBank, u, layout.sheetY, w, layout.height, layout.colkey);
    }
  }

  /** `Sprites.soldier(pos)` and the other factory methods. */
  method MakeSprite(kind: SpriteKind, pos: Position) returns (s: Sprite)
    ensures fresh(s)
    ensures s.layout == KindLayout(kind) && s.Snapshot() == InitialSprite(pos)
  {
    s := new Sprite(KindLayout(kind), pos);
  }

  // ---------------------------------------------------------------------
  // The demo application as a value
  // ---------------------------------------------------------------------

  /** The keys `App.update` reads: Q, space, N, the four arrows (with
      pyxel's repeat after 5 frames every 2), A and Z. */
  datatype AppKeys = AppKeys(
    quit: bool, space: bool, next: bool,
    down: bool, up: bool, right: bool, left: bool,
    faster: bool, slower: bool)

  /** The number of sprites `__init__` creates. */
  const SPRITE_COUNT: nat := 10

  /** `current_color`, `current_sprite_index` and the states of the sprites
      in `sprites`, in order. */
  datatype AppState = AppState(color: int, index: int, sprites: seq<SpriteState>)

  /** The colour is one of pyxel's 16, the index selects a sprite and every
      walk frame is 0 or 1. */
  predicate ValidApp(a: AppState)
  {
    && 0 <= a.color < 16
    && 0 <= a.index < |a.sprites|
    && forall i :: 0 <= i < |a.sprites| ==> WalkFrame(a.sprites[i])
  }

  /** The state after an update and the process calls it made. */
  datatype AppResult = AppResult(state: AppState, effects: seq<Effect>)

  /** The facing the arrows of an update leave: the last one handled (left,
      then right, up, down), or `prev` when no arrow is pressed. */
  function LastArrow(k: AppKeys, prev: MoveVector): MoveVector
  {
    if k.left then MoveLeft
    else if k.right then MoveRight
    else if k.up then MoveUp
    else if k.down then MoveDown
    else prev
  }

  /** One arrow key of an update: when it is pressed the sprite moves
      `speed` pixels its way, advances its walk frame and faces that way;
      otherwise nothing changes. */
  function Arrow(st: SpriteState, pressed: bool, mv: MoveVector): (r: SpriteState)
    ensures r.speed == st.speed
    ensures r.lastMove == if pressed then mv else st.lastMove
    ensures r.pos.x == st.pos.x + (if pressed && mv == MoveRight then st.speed
                                   else if pressed && mv == MoveLeft then -st.speed else 0)
    ensures r.pos.y == st.pos.y + (if pressed && mv == MoveDown then st.speed
                                   else if pressed && mv == MoveUp then -st.speed else 0)
    ensures WalkFrame(st) ==> r.state == if pressed then 1 - st.state else st.state
  {
    if pressed then Step(st, mv) else st
  }

  /** What the arrows, A and Z do to the selected sprite: moves down, up,
      right, left in that order, each `speed` pixels its way and each
      advancing the walk frame, then the speed changes. */
  function ControlSprite(st: SpriteState, k: AppKeys): (r: SpriteState)
    ensures WalkFrame(st) ==> WalkFrame(r)
    ensures r.speed == st.speed + Press(k.faster) - Press(k.slower)
    ensures r.lastMove == LastArrow(k, st.lastMove)
    ensures !k.down && !k.up && !k.right && !k.left ==> r.pos == st.pos && r.state == st.state
  {
    var s4 := Arrow(Arrow(Arrow(Arrow(st, k.down, MoveDown), k.up, MoveUp), k.right, MoveRight), k.left, MoveLeft);
    var s5 := if k.faster then s4.(speed := s4.speed + 1) else s4;
    if k.slower then s5.(speed := s5.speed - 1) else s5
  }

  /** The speed times a difference of two presses. */
  lemma SpeedTimesPresses(v: int, a: bool, b: bool)
    ensures v * (Press(a) - Press(b)) == (if a then v else 0) - (if b then v else 0)
  {
  }

  /** Each pressed arrow moves the sprite `speed` pixels its way, at the
      speed it had before A and Z: the sprite ends displaced by the speed
      times the arrows pressed, opposite arrows cancelling. */
  lemma ArrowsMoveBySpeed(st: SpriteState, k: AppKeys)
    ensures ControlSprite(st, k).pos
            == Position(st.pos.x + st.speed * (Press(k.right) - Press(k.left)),
                        st.pos.y + st.speed * (Press(k.down) - Press(k.up)))
  {
    var v := st.speed;
    var s1 := Arrow(st, k.down, MoveDown);
    var s2 := Arrow(s1, k.up, MoveUp);
    var s3 := Arrow(s2, k.right, MoveRight);
    var s4 := Arrow(s3, k.left, MoveLeft);
    assert s4.pos.x == st.pos.x + ((if k.right then v else 0) - (if k.left then v else 0));
    assert s4.pos.y == st.pos.y + ((if k.down then v else 0) - (if k.up then v else 0));
    assert ControlSprite(st, k).pos == s4.pos;
    SpeedTimesPresses(v, k.right, k.left);
    SpeedTimesPresses(v, k.down, k.up);
  }

  /** Each pressed arrow advances the walk frame once, so the frame flips
      exactly when an odd number of arrows is pressed. */
  lemma ArrowsAdvanceWalkFrame(st: SpriteState, k: AppKeys)
    requires WalkFrame(st)
    ensures ControlSprite(st, k).state
            == (st.state + Press(k.down) + Press(k.up) + Press(k.right) + Press(k.left)) % 2
  {
    var s1 := Arrow(st, k.down, MoveDown);
    var s2 := Arrow(s1, k.up, MoveUp);
    var s3 := Arrow(s2, k.right, MoveRight);
    var s4 := Arrow(s3, k.left, MoveLeft);
    assert ControlSprite(st, k).state == s4.state;
    var n := Press(k.down) + Press(k.up) + Press(k.right) + Press(k.left);
    assert s4.state == if n % 2 == 0 then st.state else 1 - st.state;
  }

  /** One call of `App.update`. Q ends the process at once; otherwise space
      advances the colour and N the selection, both wrapping, and the keys
      steer the sprite selected after N. Only that sprite changes. */
  function AppFrame(a: AppState, k: AppKeys): (r: AppResult)
    requires 0 <= a.index < |a.sprites|
    ensures |r.state.sprites| == |a.sprites| && 0 <= r.state.index < |a.sprites|
    ensures 0 <= a.color < 16 ==> 0 <= r.state.color < 16
    ensures ValidApp(a) ==> ValidApp(r.state)
    ensures forall i | 0 <= i < |a.sprites| && i != r.state.index :: r.state.sprites[i] == a.sprites[i]
  {
    if k.quit then AppResult(a, [Quit])
    else
      var color := if k.space then (a.color + 1) % 16 else a.color;
      var index := if k.next then (a.index + 1) % |a.sprites| else a.index;
      AppResult(AppState(color, index, a.sprites[index := ControlSprite(a.sprites[index], k)]), [])
  }

  /** Successive updates; one that quits ends the run. */
  function AppRun(a: AppState, ks: seq<AppKeys>): AppResult
    requires 0 <= a.index < |a.sprites|
    decreases |ks|
  {
    if |ks| == 0 then AppResult(a, [])
    else
      var f := AppFrame(a, ks[0]);
      if ks[0].quit then f
      else
        var rest := AppRun(f.state, ks[1..]);
        AppResult(rest.state, f.effects + rest.effects)
  }

  /** How many of the updates had space pressed. */
  function SpacePresses(ks: seq<AppKeys>): nat
  {
    if |ks| == 0 then 0 else (if ks[0].space then 1 else 0) + SpacePresses(ks[1..])
  }

  /** How many of the updates had N pressed. */
  function NextPresses(ks: seq<AppKeys>): nat
  {
    if |ks| == 0 then 0 else (if ks[0].next then 1 else 0) + NextPresses(ks[1..])
  }

  /** A counter pressed `presses` times, each press taking it to
      `(c + 1) % n`. */
  function Advanced(c: int, presses: nat, n: int): int
    requires n > 0
    decreases presses
  {
    if presses == 0 then c else Advanced((c + 1) % n, presses - 1, n)
  }

  /** A positive multiple of n is at least n. */
  lemma {:induction false} MultipleAtLeast(k: int, n: nat)
    requires k >= 1
    ensures n * k >= n
    decreases k
  {
    if k > 1 {
      MultipleAtLeast(k - 1, n);
      assert n * k == n * (k - 1) + n;
    }
  }

  /** A multiple of a positive n strictly between -n and n is 0 times n. */
  lemma SmallMultiple(k: int, n: int)
    requires n > 0 && -n < n * k < n
    ensures k == 0
  {
    if k > 0 {
      MultipleAtLeast(k, n);
    }
  }

  /** The remainder of a modulo n is the only r in [0, n) with a = n q + r. */
  lemma ModUnique(a: int, n: int, q: int, r: int)
    requires n > 0 && 0 <= r < n && a == n * q + r
    ensures a % n == r
  {
    var q2, r2 := a / n, a % n;
    assert n * (q2 - q) == r - r2;
    SmallMultiple(q2 - q, n);
  }

  /** A counter below n advanced once and wrapped, then advanced c more
      times, is the counter advanced c + 1 times. */
  lemma WrapThenAdd(i: int, c: nat, n: int)
    requires 0 <= i < n
    ensures ((i + 1) % n + c) % n == (i + 1 + c) % n
  {
    if i + 1 < n {
      ModUnique(i + 1, n, 0, i + 1);
    } else {
      ModUnique(n, n, 1, 0);
      ModUnique(n + c, n, c / n + 1, c % n);
    }
  }

  /** Pressing a wrapping counter p times adds p modulo n. */
  lemma {:induction false} AdvancedIsSum(c: int, p: nat, n: int)
    requires 0 <= c < n
    ensures Advanced(c, p, n) == (c + p) % n
    decreases p
  {
    if p == 0 {
      assert c % n == c;
    } else {
      AdvancedIsSum((c + 1) % n, p - 1, n);
      WrapThenAdd(c, p - 1, n);
    }
  }

  /** One update without Q advances each counter once when its key is
      pressed, and makes no process call (the step RunCounters takes per
      update). */
  lemma FrameCounters(a: AppState, k: AppKeys)
    requires !k.quit && 0 <= a.index < |a.sprites|
    ensures AppFrame(a, k).state.color == if k.space then (a.color + 1) % 16 else a.color
    ensures AppFrame(a, k).state.index == if k.next then (a.index + 1) % |a.sprites| else a.index
    ensures AppFrame(a, k).effects == [] && |AppFrame(a, k).state.sprites| == |a.sprites|
  {
  }

  /** Without Q, each counter has been pressed once per press of its key. */
  lemma {:induction false} RunCounters(a: AppState, ks: seq<AppKeys>)
    requires 0 <= a.index < |a.sprites|
    requires forall i :: 0 <= i < |ks| ==> !ks[i].quit
    ensures AppRun(a, ks).state.color == Advanced(a.color, SpacePresses(ks), 16)
    ensures AppRun(a, ks).state.index == Advanced(a.index, NextPresses(ks), |a.sprites|)
    ensures |AppRun(a, ks).state.sprites| == |a.sprites| && AppRun(a, ks).effects == []
    decreases |ks|
  {
    if |ks| > 0 {
      var k, rest := ks[0], ks[1..];
      var f := AppFrame(a, k);
      FrameCounters(a, k);
      RunCounters(f.state, rest);
      var r := AppRun(f.state, rest);
      assert AppRun(a, ks) == AppResult(r.state, f.effects + r.effects);
    }
  }

  /** Without Q, the colour is the initial one advanced once per space press
      modulo 16, and the selection the initial one advanced once per N press
      modulo the ten sprites, however the other keys are pressed. */
  lemma CountersCountPresses(a: AppState, ks: seq<AppKeys>)
    requires 0 <= a.color < 16 && 0 <= a.index < |a.sprites| == SPRITE_COUNT
    requires forall i :: 0 <= i < |ks| ==> !ks[i].quit
    ensures AppRun(a, ks).state.color == (a.color + SpacePresses(ks)) % 16
    ensures AppRun(a, ks).state.index == (a.index + NextPresses(ks)) % SPRITE_COUNT
    ensures |AppRun(a, ks).state.sprites| == SPRITE_COUNT && AppRun(a, ks).effects == []
  {
    RunCounters(a, ks);
    AdvancedIsSum(a.color, SpacePresses(ks), 16);
    AdvancedIsSum(a.index, NextPresses(ks), SPRITE_COUNT);
  }

  // ---------------------------------------------------------------------
  // The demo application as an object
  // ---------------------------------------------------------------------

  /** The states of a sequence of sprites, in order. */
  function States(ss: seq<Sprite>): (r: seq<SpriteState>)
    reads ss
    ensures |r| == |ss|
    ensures forall i :: 0 <= i < |ss| ==> r[i] == ss[i].Snapshot()
  {
    seq(|ss|, i requires 0 <= i < |ss| reads ss => ss[i].Snapshot())
  }

  class App {
    var currentColor: int
    var currentSpriteIndex: int
    var sprites: seq<Sprite>

    /** The fields and the sprites' states as a value. */
    function Snapshot(): AppState
      reads this, sprites
    {
      AppState(currentColor, currentSpriteIndex, States(sprites))
    }

    /** The counters are in range, and the sprites are distinct objects, so
        steering one leaves the others alone. */
    ghost predicate Valid()
      reads this, sprites
    {
      && ValidApp(Snapshot())
      && |sprites| == SPRITE_COUNT
      && forall i, j :: 0 <= i < j < |sprites| ==> sprites[i] != sprites[j]
    }

    /** `__init__` without pyxel: sprite i is of kind
        `allowed_sprites[picks[i]]` at `positions[i]`, the values that
        `randrange` and `Position.random` would have chosen. */
    constructor (picks: seq<nat>, positions: seq<Position>)
      requires |picks| == SPRITE_COUNT && |positions| == SPRITE_COUNT
      requires forall i :: 0 <= i < |picks| ==> picks[i] < |ALLOWED_KINDS|
      ensures Valid()
      ensures currentColor == 0 && currentSpriteIndex == 0
      ensures forall i :: 0 <= i < SPRITE_COUNT ==>
                fresh(sprites[i]) && sprites[i].layout == KindLayout(ALLOWED_KINDS[picks[i]])
      ensures States(sprites) == seq(SPRITE_COUNT, i requires 0 <= i < SPRITE_COUNT => InitialSprite(positions[i]))
    {
      var made: seq<Sprite> := [];
      for i := 0 to SPRITE_COUNT
        invariant |made| == i
        invariant forall j :: 0 <= j < i ==>
                    fresh(made[j]) && made[j].layout == KindLayout(ALLOWED_KINDS[picks[j]])
                    && made[j].Snapshot() == InitialSprite(positions[j])
        invariant forall j, l :: 0 <= j < l < i ==> made[j] != made[l]
      {
        var s := MakeSprite(ALLOWED_KINDS[picks[i]], positions[i]);
        made := made + [s];
      }
      currentColor := 0;
      currentSpriteIndex := 0;
      sprites := made;
    }

    /** The arrows, A and Z applied to one sprite. */
    method Control(current: Sprite, k: AppKeys)
      modifies current
      ensures current.Snapshot() == ControlSprite(old(current.Snapshot()), k)
    {
      if k.down {
        current.Move(MoveDown);
      }
      if k.up {
        current.Move(MoveUp);
      }
      if k.right {
        current.Move(MoveRight);
      }
      if k.left {
        current.Move(MoveLeft);
      }
      if k.faster {
        current.SetSpeed(current.speed + 1);
      }
      if k.slower {
        current.SetSpeed(current.speed - 1);
      }
    }

    /** The arrows, A and Z applied to sprite `index`; the other sprites
        and the counters are untouched. */
    method SteerSprite(index: int, k: AppKeys)
      requires 0 <= index < |sprites|
      requires forall i, j :: 0 <= i < j < |sprites| ==> sprites[i] != sprites[j]
      modifies sprites
      ensures States(sprites) == old(States(sprites))[index := ControlSprite(old(States(sprites))[index], k)]
    {
      ghost var before := States(sprites);
      var current := sprites[index];
      Control(current, k);
      forall j | 0 <= j < |sprites| && j != index
        ensures sprites[j].Snapshot() == before[j]
      {
        assert sprites[j] != current;
      }
    }

    /** `update`, with the keys pyxel reports for the frame. */
    method Update(k: AppKeys) returns (fx: seq<Effect>)
      requires Valid()
      modifies this, sprites
      ensures Valid() && sprites == old(sprites)
      ensures AppResult(Snapshot(), fx) == AppFrame(old(Snapshot()), k)
    {
      if k.quit {
        return [Quit];
      }
      ghost var a := Snapshot();
      ghost var index := if k.next then (a.index + 1) % |a.sprites| else a.index;
      assert AppFrame(a, k).state
             == AppState(if k.space then (a.color + 1) % 16 else a.color, index,
                         a.sprites[index := ControlSprite(a.sprites[index], k)]);
      if k.space {
        currentColor := (currentColor + 1) % 16;
      }
      if k.next {
        currentSpriteIndex := (currentSpriteIndex + 1) % |sprites|;
      }
      assert States(sprites) == a.sprites;
      SteerSprite(currentSpriteIndex, k);
      fx := [];
      assert Snapshot() == AppFrame(a, k).state;
    }

    /** `draw`: clear to the current colour, then each sprite in order. */
    method Draw() returns (cmds: seq<DrawCmd>)
      ensures |cmds| == |sprites| + 1 && cmds[0] == Cls(currentColor)
      ensures forall i :: 0 <= i < |sprites| ==> cmds[i + 1] == Blit(sprites[i].layout, sprites[i].Snapshot())
    {
      cmds := [Cls(currentColor)];
      for i := 0 to |sprites|
        invariant |cmds| == i + 1 && cmds[0] == Cls(currentColor)
        invariant forall j :: 0 <= j < i ==> cmds[j + 1] == Blit(sprites[j].layout, sprites[j].Snapshot())
      {
        var c := sprites[i].Draw();
        cmds := cmds + [c];
      }
    }
  }
}
