/**
 * The two families of transform matrices of the viewer (main.py): translations and
 * rotations about a coordinate axis, both applied by right-multiplying row vectors.
 * The sine and cosine of the angle are parameters: the viewer computes them with numpy.
 */
module Transforms {
  import opened Geometry

  /** The offset (dx, dy, dz) as a point with homogeneous 1. */
  function Offset(dx: real, dy: real, dz: real): Vec4
  {
    Vec4(dx, dy, dz, 1.0)
  }

  /** `translation_matrix(dx, dy, dz)`: the identity with (dx, dy, dz) in row 3, columns 0..2. */
  function Translation(dx: real, dy: real, dz: real): (m: Mat4)
    ensures forall i: nat, j: nat :: i < 4 && j < 4 ==>
      m.At(i, j) == if i == 3 && j < 3 then Offset(dx, dy, dz).At(j) else Identity().At(i, j)
  {
    Mat4(Vec4(1.0, 0.0, 0.0, 0.0), Vec4(0.0, 1.0, 0.0, 0.0),
         Vec4(0.0, 0.0, 1.0, 0.0), Vec4(dx, dy, dz, 1.0))
  }

  /** A translation adds w times the offset to a point and keeps w. */
  lemma TranslationMoves(dx: real, dy: real, dz: real, p: Vec4)
    ensures Mul(p, Translation(dx, dy, dz)) == Vec4(p.x + p.w * dx, p.y + p.w * dy, p.z + p.w * dz, p.w)
    ensures p.w == 1.0 ==> Mul(p, Translation(dx, dy, dz)) == Vec4(p.x + dx, p.y + dy, p.z + dz, 1.0)
  {
    assert Translation(dx, dy, dz) == Mat4(Vec4(1.0, 0.0, 0.0, 0.0), Vec4(0.0, 1.0, 0.0, 0.0),
                                           Vec4(0.0, 0.0, 1.0, 0.0), Vec4(dx, dy, dz, 1.0));
  }

  /** Translating by d and then by -d restores every point. */
  lemma TranslationUndo(dx: real, dy: real, dz: real, p: Vec4)
    ensures Mul(Mul(p, Translation(dx, dy, dz)), Translation(-dx, -dy, -dz)) == p
  {
    TranslationMoves(dx, dy, dz, p);
    TranslationMoves(-dx, -dy, -dz, Mul(p, Translation(dx, dy, dz)));
  }

  /** Translating a whole node array by d and then by -d restores it. */
  lemma TranslationUndoRows(dx: real, dy: real, dz: real, nodes: seq<Vec4>)
    ensures MulRows(MulRows(nodes, Translation(dx, dy, dz)), Translation(-dx, -dy, -dz)) == nodes
  {
    var moved := MulRows(nodes, Translation(dx, dy, dz));
    forall k | 0 <= k < |nodes|
      ensures MulRows(moved, Translation(-dx, -dy, -dz))[k] == nodes[k]
    {
      TranslationUndo(dx, dy, dz, nodes[k]);
    }
  }

  /** `RotationAxis`. */
  datatype Axis = X | Y | Z

  /** The two coordinates a rotation about `axis` mixes: the rows and columns of its 2x2 block. */
  function Plane(axis: Axis): (nat, nat)
  {
    match axis
    case X => (1, 2)
    case Y => (0, 2)
    case Z => (0, 1)
  }

  /** The coordinate a rotation about `axis` keeps. */
  function Fixed(axis: Axis): nat
  {
    match axis
    case X => 0
    case Y => 1
    case Z => 2
  }

  predicate InPlane(axis: Axis, i: nat)
  {
    i == Plane(axis).0 || i == Plane(axis).1
  }

  /**
   * `rotation_matrix(radians, axis)` with sin = sin(radians) and cos = cos(radians):
   * the identity outside the 2x2 block on `Plane(axis)`; the block has cos on its
   * diagonal and -sin, sin off it, except that for Y the signs are the other way round.
   */
  function Rotation(sin: real, cos: real, axis: Axis): (m: Mat4)
    ensures forall i: nat, j: nat :: i < 4 && j < 4 && !(InPlane(axis, i) && InPlane(axis, j)) ==>
      m.At(i, j) == Identity().At(i, j)
    ensures var (a, b) := Plane(axis);
      && m.At(a, a) == cos && m.At(b, b) == cos
      && m.At(a, b) == (if axis == Y then sin else -sin)
      && m.At(b, a) == (if axis == Y then -sin else sin)
  {
    match axis
    case X =>
      Mat4(Vec4(1.0, 0.0, 0.0, 0.0), Vec4(0.0, cos, -sin, 0.0),
           Vec4(0.0, sin, cos, 0.0), Vec4(0.0, 0.0, 0.0, 1.0))
    case Y =>
      Mat4(Vec4(cos, 0.0, sin, 0.0), Vec4(0.0, 1.0, 0.0, 0.0),
           Vec4(-sin, 0.0, cos, 0.0), Vec4(0.0, 0.0, 0.0, 1.0))
    case Z =>
      Mat4(Vec4(cos, -sin, 0.0, 0.0), Vec4(sin, cos, 0.0, 0.0),
           Vec4(0.0, 0.0, 1.0, 0.0), Vec4(0.0, 0.0, 0.0, 1.0))
  }

  /** Row 3 and column 3 of every rotation are those of the identity. */
  lemma RotationHomogeneousPart(sin: real, cos: real, axis: Axis)
    ensures forall k: nat :: k < 4 ==>
      Rotation(sin, cos, axis).At(3, k) == Identity().At(3, k) &&
      Rotation(sin, cos, axis).At(k, 3) == Identity().At(k, 3)
  {
  }

  /** A rotation keeps the homogeneous component and the coordinate along its axis. */
  lemma RotationKeeps(sin: real, cos: real, axis: Axis, p: Vec4)
    ensures Mul(p, Rotation(sin, cos, axis)).w == p.w
    ensures Mul(p, Rotation(sin, cos, axis)).At(Fixed(axis)) == p.At(Fixed(axis))
  {
  }

  /** The rotation by a zero angle is the identity. */
  lemma RotationByZero(axis: Axis)
    ensures Rotation(0.0, 1.0, axis) == Identity()
  {
  }

  /** Rotating in the plane (u, v) by (sin, cos) and then by (-sin, cos) restores (u, v). */
  lemma PlaneUndo(sin: real, cos: real, u: real, v: real)
    requires sin * sin + cos * cos == 1.0
    ensures cos * (cos * u + sin * v) - sin * (-sin * u + cos * v) == u
    ensures sin * (cos * u + sin * v) + cos * (-sin * u + cos * v) == v
  {
    assert cos * (cos * u + sin * v) - sin * (-sin * u + cos * v) == (sin * sin + cos * cos) * u;
    assert sin * (cos * u + sin * v) + cos * (-sin * u + cos * v) == (sin * sin + cos * cos) * v;
  }

  /**
   * When sin and cos belong to one angle, rotating by it and then by its negative
   * (sin(-t) = -sin t, cos(-t) = cos t) restores every point.
   */
  lemma RotationUndo(sin: real, cos: real, axis: Axis, p: Vec4)
    requires sin * sin + cos * cos == 1.0
    ensures Mul(Mul(p, Rotation(sin, cos, axis)), Rotation(-sin, cos, axis)) == p
  {
    match axis
    case X => PlaneUndo(sin, cos, p.y, p.z);
    case Y => PlaneUndo(-sin, cos, p.x, p.z);
    case Z => PlaneUndo(sin, cos, p.x, p.y);
  }

  /** Rotating by (sin, cos) in the plane (u, v) preserves u^2 + v^2. */
  lemma PlaneLength(sin: real, cos: real, u: real, v: real)
    requires sin * sin + cos * cos == 1.0
    ensures (cos * u + sin * v) * (cos * u + sin * v) + (-sin * u + cos * v) * (-sin * u + cos * v)
         == u * u + v * v
  {
    assert (cos * u + sin * v) * (cos * u + sin * v) + (-sin * u + cos * v) * (-sin * u + cos * v)
        == (sin * sin + cos * cos) * (u * u + v * v);
  }

  function SquaredLength(p: Vec4): real
  {
    p.x * p.x + p.y * p.y + p.z * p.z
  }

  /** A rotation by a true angle preserves the distance of a point from the origin. */
  lemma RotationKeepsLength(sin: real, cos: real, axis: Axis, p: Vec4)
    requires sin * sin + cos * cos == 1.0
    ensures SquaredLength(Mul(p, Rotation(sin, cos, axis))) == SquaredLength(p)
  {
    match axis
    case X => PlaneLength(sin, cos, p.y, p.z);
    case Y => PlaneLength(-sin, cos, p.x, p.z);
    case Z => PlaneLength(sin, cos, p.x, p.y);
  }
}
