/** Out-of-bounds wraparound (`alter_bounds`): a per-axis teleport to the opposite face of the arena. */
module Bounds {
  import opened Vectors
  import opened Config

  /** Lowest coordinate a plane may keep. */
  const Low: real := Buffer
  /** Highest coordinate a plane may keep. */
  const High: real := 2.0 * OuterRadius - Buffer

  predicate AxisInRange(c: real) {
    Low <= c <= High
  }

  /** The region no axis of which is wrapped. */
  predicate InBox(v: Vec3) {
    AxisInRange(v.x) && AxisInRange(v.y) && AxisInRange(v.z)
  }

  /** The value one coordinate of the plane's position takes after the bounds check. */
  function WrapAxis(c: real): (r: real)
    ensures AxisInRange(r)
    ensures AxisInRange(c) ==> r == c
    ensures c < Low ==> r == High - Epsilon
    ensures c > High ==> r == Low + Epsilon
  {
    if c < Low then 2.0 * OuterRadius - Buffer - Epsilon
    else if c > High then Buffer + Epsilon
    else c
  }

  /** The value one coordinate of the left or right guide takes after the bounds check:
      on a wrapped axis it is moved onto the face the plane re-enters through. */
  function GuideAxis(c: real, g: real): (r: real)
    ensures AxisInRange(c) ==> r == g
    ensures !AxisInRange(c) ==> AxisInRange(r) && (r == Low || r == High)
    ensures !AxisInRange(c) ==> WrapAxis(c) - r == Epsilon || r - WrapAxis(c) == Epsilon
  {
    if c < Low then 2.0 * OuterRadius - Buffer
    else if c > High then Buffer
    else g
  }

  function Wrap(v: Vec3): (r: Vec3)
    ensures InBox(r)
    ensures InBox(v) ==> r == v
  {
    Vec3(WrapAxis(v.x), WrapAxis(v.y), WrapAxis(v.z))
  }

  function WrapGuide(pos: Vec3, g: Vec3): Vec3 {
    Vec3(GuideAxis(pos.x, g.x), GuideAxis(pos.y, g.y), GuideAxis(pos.z, g.z))
  }

  /** What the bounds check leaves behind: the plane's position, its two wing guides, and whether any axis wrapped. */
  datatype Altered = Altered(pos: Vec3, left: Vec3, right: Vec3, outOfBounds: bool)

  /** `alter_bounds` applied to a plane at `pos` whose wing guides are at `left` and `right`. */
  function AlterBounds(pos: Vec3, left: Vec3, right: Vec3): (r: Altered)
    ensures InBox(r.pos)
    ensures r.outOfBounds <==> !InBox(pos)
    ensures !r.outOfBounds ==> r == Altered(pos, left, right, false)
    ensures r.pos.x == WrapAxis(pos.x) && r.left.x == GuideAxis(pos.x, left.x) && r.right.x == GuideAxis(pos.x, right.x)
    ensures r.pos.y == WrapAxis(pos.y) && r.left.y == GuideAxis(pos.y, left.y) && r.right.y == GuideAxis(pos.y, right.y)
    ensures r.pos.z == WrapAxis(pos.z) && r.left.z == GuideAxis(pos.z, left.z) && r.right.z == GuideAxis(pos.z, right.z)
    ensures r.pos.x == pos.x || (r.pos.x - r.left.x == r.pos.x - r.right.x && (r.pos.x - r.left.x == Epsilon || r.left.x - r.pos.x == Epsilon))
    ensures r.pos.y == pos.y || (r.pos.y - r.left.y == r.pos.y - r.right.y && (r.pos.y - r.left.y == Epsilon || r.left.y - r.pos.y == Epsilon))
    ensures r.pos.z == pos.z || (r.pos.z - r.left.z == r.pos.z - r.right.z && (r.pos.z - r.left.z == Epsilon || r.left.z - r.pos.z == Epsilon))
  {
    Altered(Wrap(pos), WrapGuide(pos, left), WrapGuide(pos, right), !InBox(pos))
  }

  /** Wrapping an already wrapped position changes nothing. */
  lemma WrapIdempotent(v: Vec3)
    ensures Wrap(Wrap(v)) == Wrap(v)
    ensures AlterBounds(Wrap(v), Zero, Zero).outOfBounds == false
  {
  }
}
