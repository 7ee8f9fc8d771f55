/**
 * Homogeneous coordinates: 4-component row vectors and 4x4 matrices over the reals,
 * with numpy's `v @ m` (a row vector times a matrix) and `nodes @ m` (every row of a
 * node array times a matrix).
 */
module Geometry {

  /** A row vector (x, y, z, w); a model node is (x, y, z, 1). */
  datatype Vec4 = Vec4(x: real, y: real, z: real, w: real) {

    /** Component `i`, as numpy's `v[i]`. */
    function At(i: nat): real
      requires i < 4
    {
      if i == 0 then x else if i == 1 then y else if i == 2 then z else w
    }
  }

  /** A 4x4 matrix given by its four rows. */
  datatype Mat4 = Mat4(r0: Vec4, r1: Vec4, r2: Vec4, r3: Vec4) {

    function Row(i: nat): Vec4
      requires i < 4
    {
      if i == 0 then r0 else if i == 1 then r1 else if i == 2 then r2 else r3
    }

    /** Entry `matrix[i][j]`. */
    function At(i: nat, j: nat): real
      requires i < 4 && j < 4
    {
      Row(i).At(j)
    }
  }

  /** numpy's `np.eye(4)`. */
  function Identity(): (m: Mat4)
    ensures forall i: nat, j: nat :: i < 4 && j < 4 ==> m.At(i, j) == if i == j then 1.0 else 0.0
  {
    Mat4(Vec4(1.0, 0.0, 0.0, 0.0), Vec4(0.0, 1.0, 0.0, 0.0),
         Vec4(0.0, 0.0, 1.0, 0.0), Vec4(0.0, 0.0, 0.0, 1.0))
  }

  /** The row vector `v` times `m`: component j is the sum over k of v[k] * m[k][j]. */
  function Mul(v: Vec4, m: Mat4): Vec4
  {
    Vec4(v.x * m.r0.x + v.y * m.r1.x + v.z * m.r2.x + v.w * m.r3.x,
         v.x * m.r0.y + v.y * m.r1.y + v.z * m.r2.y + v.w * m.r3.y,
         v.x * m.r0.z + v.y * m.r1.z + v.z * m.r2.z + v.w * m.r3.z,
         v.x * m.r0.w + v.y * m.r1.w + v.z * m.r2.w + v.w * m.r3.w)
  }

  /** Multiplying by the identity changes nothing. */
  lemma MulIdentity(v: Vec4)
    ensures Mul(v, Identity()) == v
  {
  }

  /** `nodes @ m` for an n x 4 node array: row by row. */
  function MulRows(nodes: seq<Vec4>, m: Mat4): (r: seq<Vec4>)
    ensures |r| == |nodes|
    ensures forall k :: 0 <= k < |nodes| ==> r[k] == Mul(nodes[k], m)
  {
    seq(|nodes|, k requires 0 <= k < |nodes| => Mul(nodes[k], m))
  }

  /** Applying the identity to a node array leaves it unchanged. */
  lemma MulRowsIdentity(nodes: seq<Vec4>)
    ensures MulRows(nodes, Identity()) == nodes
  {
    forall k | 0 <= k < |nodes| ensures MulRows(nodes, Identity())[k] == nodes[k] {
      MulIdentity(nodes[k]);
    }
  }
}
