/**
 * Plane geometry used by the shooter: 2D vectors and Bevy's axis-aligned
 * bounding box `Aabb2d`, built from a transform's translation and scale.
 * Coordinates are exact reals standing in for the source's f32.
 */
module Geometry {

  datatype Vec2 = Vec2(x: real, y: real)

  /** An axis-aligned box given by its lower-left and upper-right corners. */
  datatype Aabb2d = Aabb2d(min: Vec2, max: Vec2)

  function Abs(r: real): (a: real)
    ensures a >= 0.0 && (a == r || a == -r)
  {
    if r < 0.0 then -r else r
  }

  /** `Aabb2d::new(center, half_size)`: the box spanning center -/+ half_size. */
  function FromCenter(center: Vec2, halfSize: Vec2): (b: Aabb2d)
    ensures b.max.x - b.min.x == 2.0 * halfSize.x && b.max.y - b.min.y == 2.0 * halfSize.y
    ensures (b.min.x + b.max.x) / 2.0 == center.x && (b.min.y + b.max.y) / 2.0 == center.y
  {
    Aabb2d(Vec2(center.x - halfSize.x, center.y - halfSize.y),
           Vec2(center.x + halfSize.x, center.y + halfSize.y))
  }

  /** `IntersectsVolume::intersects` for two boxes: closed intervals overlap on both axes. */
  predicate Intersects(a: Aabb2d, b: Aabb2d)
  {
    && a.min.x <= b.max.x && a.max.x >= b.min.x
    && a.min.y <= b.max.y && a.max.y >= b.min.y
  }

  /**
   * The box of a transform, centre = translation and half size = scale / 2,
   * tested against the box of another transform. The result is the
   * centre-distance form of the overlap test: on each axis the centres lie
   * no further apart than the sum of the half sizes (touching boxes overlap).
   */
  function TransformsOverlap(t1: Vec2, s1: Vec2, t2: Vec2, s2: Vec2): (r: bool)
    ensures r <==> (Abs(t1.x - t2.x) <= (s1.x + s2.x) / 2.0
                    && Abs(t1.y - t2.y) <= (s1.y + s2.y) / 2.0)
  {
    Intersects(FromCenter(t1, Vec2(s1.x / 2.0, s1.y / 2.0)),
               FromCenter(t2, Vec2(s2.x / 2.0, s2.y / 2.0)))
  }

  /** Which box is the projectile and which the collider does not matter. */
  lemma OverlapSymmetric(t1: Vec2, s1: Vec2, t2: Vec2, s2: Vec2)
    ensures TransformsOverlap(t1, s1, t2, s2) == TransformsOverlap(t2, s2, t1, s1)
  {
  }
}
