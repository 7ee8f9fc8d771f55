/**
 * Pinhole projection of `project_point_to_2d` (main.py): Z is the depth axis, the
 * view plane is centred in the viewport and the screen Y axis points down.
 */
module Projection {
  import opened Geometry
  import opened Outcomes

  /** A point is in front of the camera iff its depth is strictly beyond the focal length. */
  predicate Visible(p: Vec4, focal: int)
  {
    p.z > focal as real
  }

  /**
   * The screen point of `p`, or None when `p` is at or behind the focal plane.
   * A visible screen point (sx, sy) satisfies the pinhole equations
   * (sx - w/2) * z == focal * x and (h/2 - sy) * z == focal * y.
   */
  function Project(p: Vec4, viewWidth: int, viewHeight: int, focal: int): (r: Option<(real, real)>)
    requires focal >= 0
    ensures r.None? <==> !Visible(p, focal)
    ensures r.Some? ==>
      && (r.value.0 - viewWidth as real / 2.0) * p.z == focal as real * p.x
      && (viewHeight as real / 2.0 - r.value.1) * p.z == focal as real * p.y
  {
    if p.z <= focal as real then None
    else
      var scale := focal as real / p.z;
      assert scale * p.z == focal as real;
      assert (scale * p.x) * p.z == focal as real * p.x;
      assert (scale * p.y) * p.z == focal as real * p.y;
      Some((scale * p.x + viewWidth as real / 2.0, viewHeight as real / 2.0 - scale * p.y))
  }

  /** The pinhole equations determine the screen point of a visible point. */
  lemma ProjectUnique(p: Vec4, viewWidth: int, viewHeight: int, focal: int, sx: real, sy: real)
    requires focal >= 0 && Visible(p, focal)
    requires (sx - viewWidth as real / 2.0) * p.z == focal as real * p.x
    requires (viewHeight as real / 2.0 - sy) * p.z == focal as real * p.y
    ensures Project(p, viewWidth, viewHeight, focal) == Some((sx, sy))
  {
    var c := Project(p, viewWidth, viewHeight, focal).value;
    assert (sx - c.0) * p.z == 0.0;
    ZeroProduct(sx - c.0, p.z);
    assert (sy - c.1) * p.z == 0.0;
    ZeroProduct(sy - c.1, p.z);
  }

  lemma ZeroProduct(a: real, z: real)
    requires z > 0.0 && a * z == 0.0
    ensures a == 0.0
  {
  }

  /** A point exactly on the focal plane is not drawn; one any distance beyond it is. */
  lemma VisibilityBoundary(p: Vec4, viewWidth: int, viewHeight: int, focal: int, eps: real)
    requires focal >= 0 && eps > 0.0
    ensures Project(p.(z := focal as real), viewWidth, viewHeight, focal) == None
    ensures Project(p.(z := focal as real + eps), viewWidth, viewHeight, focal).Some?
  {
  }

  /** Points on one ray from the eye, both visible, land on the same screen point. */
  lemma SameRaySamePoint(p: Vec4, k: real, viewWidth: int, viewHeight: int, focal: int)
    requires focal >= 0 && k > 0.0
    requires Visible(p, focal) && Visible(Vec4(k * p.x, k * p.y, k * p.z, p.w), focal)
    ensures Project(Vec4(k * p.x, k * p.y, k * p.z, p.w), viewWidth, viewHeight, focal)
         == Project(p, viewWidth, viewHeight, focal)
  {
    var q := Vec4(k * p.x, k * p.y, k * p.z, p.w);
    var c := Project(q, viewWidth, viewHeight, focal).value;
    var f := focal as real;
    assert (c.0 - viewWidth as real / 2.0) * (k * p.z) == f * (k * p.x);
    assert k * ((c.0 - viewWidth as real / 2.0) * p.z - f * p.x) == 0.0;
    assert (viewHeight as real / 2.0 - c.1) * (k * p.z) == f * (k * p.y);
    assert k * ((viewHeight as real / 2.0 - c.1) * p.z - f * p.y) == 0.0;
    ProjectUnique(p, viewWidth, viewHeight, focal, c.0, c.1);
  }

  /** (10, 0, 200) seen with focal 100 in a 500x500 view lands at (255, 250). */
  lemma ProjectExample()
    ensures Project(Vec4(10.0, 0.0, 200.0, 1.0), 500, 500, 100) == Some((255.0, 250.0))
    ensures Project(Vec4(0.0, 0.0, 200.0, 1.0), 500, 500, 100) == Some((250.0, 250.0))
  {
  }
}
