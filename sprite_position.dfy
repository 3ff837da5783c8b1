/** `Position` of sprite.py and its four move constants. Position objects are
    never changed in place by the code modelled here (`+=` rebinds `_pos` to
    the new object `__add__` returns), so a position is a value. */
module SpritePosition {

  /** A point on the screen; `__add__` and `__mul__` return new points. */
  datatype Position = Position(x: int, y: int)
  {
    /** `self + other`: the componentwise sum; neither operand changes. */
    function Add(other: Position): (r: Position)
      ensures r.x - x == other.x && r.y - y == other.y
    {
      Position(x + other.x, y + other.y)
    }

    /** `self * mul`: both components times the scalar. */
    function Scale(mul: int): (r: Position)
      ensures mul == 0 ==> r == Position(0, 0)
      ensures mul == 1 ==> r == this
    {
      Position(x * mul, y * mul)
    }
  }

  /** MOVE_RIGHT, MOVE_LEFT, MOVE_DOWN and MOVE_UP. Position has no `__eq__`,
      so sprite.py compares moves by object identity; every move it passes is
      one of these four objects, so identity is exactly membership in this
      enumeration. */
  datatype MoveVector = MoveRight | MoveLeft | MoveDown | MoveUp

  /** The coordinates of each move constant (y grows downwards). */
  function Vector(mv: MoveVector): (p: Position)
    ensures p.x * p.x + p.y * p.y == 1
  {
    match mv
    case MoveRight => Position(1, 0)
    case MoveLeft => Position(-1, 0)
    case MoveDown => Position(0, 1)
    case MoveUp => Position(0, -1)
  }

  /** The move in the other direction. */
  function Opposite(mv: MoveVector): (r: MoveVector)
    ensures r != mv
  {
    match mv
    case MoveRight => MoveLeft
    case MoveLeft => MoveRight
    case MoveDown => MoveUp
    case MoveUp => MoveDown
  }

  // ---------------------------------------------------------------------
  // Properties of the arithmetic
  // ---------------------------------------------------------------------

  /** The four constants have different coordinates, so identity and value
      comparison agree on them. */
  lemma VectorInjective(a: MoveVector, b: MoveVector)
    ensures Vector(a) == Vector(b) <==> a == b
  {
  }

  /** Opposite moves have opposite vectors. */
  lemma OppositeVector(mv: MoveVector)
    ensures Vector(Opposite(mv)) == Vector(mv).Scale(-1)
    ensures Vector(mv).Add(Vector(Opposite(mv))) == Position(0, 0)
  {
  }

  /** Scaling by a sum is adding the two scalings. */
  lemma ScaleDistributes(p: Position, a: int, b: int)
    ensures p.Scale(a).Add(p.Scale(b)) == p.Scale(a + b)
  {
    assert p.x * a + p.x * b == p.x * (a + b);
    assert p.y * a + p.y * b == p.y * (a + b);
  }

  /** Scaling twice is scaling by the product. */
  lemma ScaleComposes(p: Position, a: int, b: int)
    ensures p.Scale(a).Scale(b) == p.Scale(a * b)
  {
    assert (p.x * a) * b == p.x * (a * b);
    assert (p.y * a) * b == p.y * (a * b);
  }

  /** Addition of positions is associative. */
  lemma AddAssociates(p: Position, q: Position, r: Position)
    ensures p.Add(q).Add(r) == p.Add(q.Add(r))
  {
  }
}
