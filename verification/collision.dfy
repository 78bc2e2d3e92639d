/** The segment-versus-trail hit test (`intersects`) and the geometry of the collision records it reads. */
module Collision {
  import opened Wrappers
  import opened Vectors

  /** The geometric part of a collision record: the inverse of the matrix whose columns are the two
      spanning vectors and the normal, the normal, and the vertex the spanning vectors start from. */
  datatype Surface = Surface(matrix: Mat3, normal: Vec3, point: Vec3)

  /** A segment between two guide positions of a plane. */
  datatype Edge = Edge(p1: Vec3, p2: Vec3)

  function Direction(e: Edge): Vec3 {
    Sub(e.p2, e.p1)
  }

  /** The point p1 + c * (p2 - p1) of the edge's line. */
  function At(e: Edge, c: real): Vec3 {
    Add(e.p1, Scale(c, Direction(e)))
  }

  /** Signed offset of `x` from the surface's plane, in units of the normal's length. */
  function Offset(s: Surface, x: Vec3): real {
    Dot(Sub(x, s.point), s.normal)
  }

  /** The two ends of the edge lie on opposite closed sides of the surface's plane. */
  predicate Straddles(s: Surface, e: Edge) {
    (Offset(s, e.p1) <= 0.0 <= Offset(s, e.p2)) || (Offset(s, e.p2) <= 0.0 <= Offset(s, e.p1))
  }

  predicate Parallel(s: Surface, e: Edge) {
    Dot(s.normal, Direction(e)) == 0.0
  }

  /** The parameter `c` at which the edge's line crosses the surface's plane. */
  function Param(s: Surface, e: Edge): (c: real)
    requires !Parallel(s, e)
    ensures Offset(s, At(e, c)) == 0.0
  {
    var dp := Dot(s.normal, Direction(e));
    var c := Dot(Sub(s.point, e.p1), s.normal) / dp;
    OffsetAt(s, e, c);
    assert Dot(Sub(e.p1, s.point), s.normal) == -Dot(Sub(s.point, e.p1), s.normal);
    c
  }

  lemma OffsetAt(s: Surface, e: Edge, c: real)
    ensures Offset(s, At(e, c)) == Offset(s, e.p1) + c * Dot(s.normal, Direction(e))
  {
  }

  /** Everything `intersects` computes before its final comparison: the coordinates, in the record's own
      frame, of the point where the edge crosses the record's plane; None when the edge is parallel to the
      plane or crosses its line outside the segment. */
  function Local(s: Surface, e: Edge): (r: Option<Vec3>)
    ensures r.Some? <==> !Parallel(s, e) && Straddles(s, e)
  {
    if Parallel(s, e) then None
    else
      var v := Direction(e);
      var c := Param(s, e);
      ParamInUnit(s, e);
      if c < 0.0 || c > 1.0 then None
      else Some(Apply(s.matrix, Add(Sub(Scale(c, v), s.point), e.p1)))
  }

  lemma ParamInUnit(s: Surface, e: Edge)
    requires !Parallel(s, e)
    ensures 0.0 <= Param(s, e) <= 1.0 <==> Straddles(s, e)
  {
    var a, b := Offset(s, e.p1), Offset(s, e.p2);
    var dp := Dot(s.normal, Direction(e));
    assert dp == b - a;
    assert Dot(Sub(s.point, e.p1), s.normal) == -a;
    Ratio(a, b, Param(s, e));
  }

  /** `q` is the quotient -a / (b - a); it lies in [0, 1] exactly when a and b have opposite signs. */
  lemma Ratio(a: real, b: real, q: real)
    requires b - a != 0.0 && q == -a / (b - a)
    ensures 0.0 <= q <= 1.0 <==> (a <= 0.0 <= b) || (b <= 0.0 <= a)
  {
    var d := b - a;
    assert q * d == -a;
    if d > 0.0 {
      if q < 0.0 { MulPositive(-q, d, -q * d); }
      if q > 1.0 { MulPositive(q - 1.0, d, (q - 1.0) * d); }
      if -a < 0.0 || -a > d {
        assert q < 0.0 || q > 1.0 by {
          if 0.0 <= q <= 1.0 {
            if q > 0.0 { MulPositive(q, d, q * d); }
            if q < 1.0 { MulPositive(1.0 - q, d, (1.0 - q) * d); }
          }
        }
      }
    } else {
      if q < 0.0 { MulPositive(-q, -d, q * d); }
      if q > 1.0 { MulPositive(q - 1.0, -d, (1.0 - q) * d); }
      if -a > 0.0 || -a < d {
        assert q < 0.0 || q > 1.0 by {
          if 0.0 <= q <= 1.0 {
            if q > 0.0 { MulPositive(q, -d, -(q * d)); }
            if q < 1.0 { MulPositive(1.0 - q, -d, (q - 1.0) * d); }
          }
        }
      }
    }
  }

  /** The final comparison of js/server.js: the local point lies in the triangle with legs along the two
      spanning vectors. */
  predicate InTriangle(q: Vec3) {
    q.x >= 0.0 && q.x <= 1.0 && q.y >= 0.0 && q.y <= 1.0 && q.x + q.y <= 1.0
  }

  /** The final comparison of server.js: the local point lies in the unit square. */
  predicate InSquare(q: Vec3) {
    q.x >= 0.0 && q.x <= 1.0 && q.y >= 0.0 && q.y <= 1.0
  }

  /** `intersects` of js/server.js. */
  function Intersects(s: Surface, e: Edge): (r: bool)
    ensures r ==> !Parallel(s, e) && Straddles(s, e)
    ensures s.normal == Zero ==> !r
  {
    match Local(s, e)
    case None => false
    case Some(q) => InTriangle(q)
  }

  /** `intersects` of server.js, which has no x + y <= 1 clause. */
  function IntersectsSquare(s: Surface, e: Edge): (r: bool)
    ensures r ==> !Parallel(s, e) && Straddles(s, e)
    ensures s.normal == Zero ==> !r
  {
    match Local(s, e)
    case None => false
    case Some(q) => InSquare(q)
  }

  /** Every hit of the triangle test is a hit of the square test; the converse fails (see `SquareOnlyHit`). */
  lemma TriangleWithinSquare(s: Surface, e: Edge)
    ensures Intersects(s, e) ==> IntersectsSquare(s, e)
  {
  }

  /** The record `get_collision_data` builds from the triangle p1, p2, p3: spanning vectors p2 - p1 and
      p3 - p1, their cross product as normal, and `inv` standing for what Matrix3.getInverse returns. */
  function MakeSurface(p1: Vec3, p2: Vec3, p3: Vec3, inv: Mat3): (r: Surface)
    ensures r.point == p1
    ensures Dot(Sub(p2, p1), r.normal) == 0.0 && Dot(Sub(p3, p1), r.normal) == 0.0
  {
    CrossOrthogonal(Sub(p2, p1), Sub(p3, p1));
    Surface(inv, Cross(Sub(p2, p1), Sub(p3, p1)), p1)
  }

  /** The edge's point at parameter c is the point o + a * v1 + b * v2 of the plane spanned at o. */
  predicate Meets(o: Vec3, v1: Vec3, v2: Vec3, e: Edge, c: real, a: real, b: real) {
    At(e, c) == Add(o, Add(Scale(a, v1), Scale(b, v2)))
  }

  /** The segment meets the closed triangle o, o + v1, o + v2. */
  ghost predicate MeetsTriangle(o: Vec3, v1: Vec3, v2: Vec3, e: Edge) {
    exists c, a, b :: 0.0 <= c <= 1.0 && 0.0 <= a && 0.0 <= b && a + b <= 1.0 && Meets(o, v1, v2, e, c, a, b)
  }

  /** The segment meets the closed parallelogram o, o + v1, o + v1 + v2, o + v2. */
  ghost predicate MeetsParallelogram(o: Vec3, v1: Vec3, v2: Vec3, e: Edge) {
    exists c, a, b :: 0.0 <= c <= 1.0 && 0.0 <= a <= 1.0 && 0.0 <= b <= 1.0 && Meets(o, v1, v2, e, c, a, b)
  }

  /** The record is well formed over the spanning vectors v1 and v2: its normal is orthogonal to both and
      its matrix is the inverse of the matrix with columns v1, v2 and the normal. */
  predicate Frame(s: Surface, v1: Vec3, v2: Vec3) {
    Dot(v1, s.normal) == 0.0 && Dot(v2, s.normal) == 0.0 && IsInverse(s.matrix, Columns(v1, v2, s.normal))
  }

  /** An invertible frame has a non-zero normal. */
  lemma FrameNormal(s: Surface, v1: Vec3, v2: Vec3)
    requires Frame(s, v1, v2)
    ensures s.normal != Zero
  {
    var m := Columns(v1, v2, s.normal);
    assert Mul(s.matrix, m).r2.z == Dot(s.matrix.r2, s.normal);
  }

  lemma CombineColumns(v1: Vec3, v2: Vec3, n: Vec3, q: Vec3)
    ensures Dot(Apply(Columns(v1, v2, n), q), n) == q.x * Dot(v1, n) + q.y * Dot(v2, n) + q.z * Dot(n, n)
  {
    ApplyColumns(v1, v2, n, q.x, q.y, q.z);
    DotAdd(Add(Scale(q.x, v1), Scale(q.y, v2)), Scale(q.z, n), n);
    DotAdd(Scale(q.x, v1), Scale(q.y, v2), n);
    DotScale(q.x, v1, n);
    DotScale(q.y, v2, n);
    DotScale(q.z, n, n);
  }

  /** When the local point exists it lies in the plane (z = 0) and is where the edge meets it. */
  lemma LocalSound(s: Surface, v1: Vec3, v2: Vec3, e: Edge)
    requires Frame(s, v1, v2)
    requires Local(s, e).Some?
    ensures Local(s, e).value.z == 0.0
    ensures Meets(s.point, v1, v2, e, Param(s, e), Local(s, e).value.x, Local(s, e).value.y)
  {
    var n := s.normal;
    var c := Param(s, e);
    var x := Sub(At(e, c), s.point);
    assert Add(Sub(Scale(c, Direction(e)), s.point), e.p1) == x;
    var q := Local(s, e).value;
    assert q == Apply(s.matrix, x);
    var m := Columns(v1, v2, n);
    ApplyMul(m, s.matrix, x);
    ApplyIdentity(x);
    assert Apply(m, q) == x;
    CombineColumns(v1, v2, n, q);
    assert q.z * Dot(n, n) == 0.0;
    FrameNormal(s, v1, v2);
    DotSelfNonNegative(n);
    ZeroFactor(q.z, Dot(n, n));
    ApplyColumns(v1, v2, n, q.x, q.y, q.z);
  }

  lemma ZeroFactor(t: real, k: real)
    requires k > 0.0 && t * k == 0.0
    ensures t == 0.0
  {
    if t > 0.0 { MulPositive(t, k, t * k); }
    if t < 0.0 { MulPositive(-t, k, -(t * k)); }
  }

  /** Conversely, a point where the segment meets the plane spanned at the record's vertex has local
      coordinates (a, b, 0). */
  lemma LocalComplete(s: Surface, v1: Vec3, v2: Vec3, e: Edge, c: real, a: real, b: real)
    requires Frame(s, v1, v2)
    requires !Parallel(s, e) && 0.0 <= c <= 1.0 && Meets(s.point, v1, v2, e, c, a, b)
    ensures Local(s, e) == Some(Vec3(a, b, 0.0))
  {
    var n := s.normal;
    var dp := Dot(n, Direction(e));
    var x := Sub(At(e, c), s.point);
    var m := Columns(v1, v2, n);
    ApplyColumns(v1, v2, n, a, b, 0.0);
    assert Apply(m, Vec3(a, b, 0.0)) == x;
    CombineColumns(v1, v2, n, Vec3(a, b, 0.0));
    assert Offset(s, At(e, c)) == 0.0;
    OffsetAt(s, e, c);
    assert Dot(Sub(s.point, e.p1), n) == -Offset(s, e.p1);
    assert c * dp == Dot(Sub(s.point, e.p1), n);
    assert c == Param(s, e);
    assert Add(Sub(Scale(c, Direction(e)), s.point), e.p1) == x;
    ApplyMul(s.matrix, m, Vec3(a, b, 0.0));
    ApplyIdentity(Vec3(a, b, 0.0));
  }

  /** `intersects` of js/server.js decides exactly whether a non-parallel edge meets the record's triangle. */
  lemma IntersectsMeansTriangle(s: Surface, v1: Vec3, v2: Vec3, e: Edge)
    requires Frame(s, v1, v2)
    ensures Intersects(s, e) <==> !Parallel(s, e) && MeetsTriangle(s.point, v1, v2, e)
  {
    if Intersects(s, e) {
      LocalSound(s, v1, v2, e);
      var q := Local(s, e).value;
      assert Meets(s.point, v1, v2, e, Param(s, e), q.x, q.y);
    }
    if !Parallel(s, e) && MeetsTriangle(s.point, v1, v2, e) {
      var c, a, b :| 0.0 <= c <= 1.0 && 0.0 <= a && 0.0 <= b && a + b <= 1.0 && Meets(s.point, v1, v2, e, c, a, b);
      LocalComplete(s, v1, v2, e, c, a, b);
    }
  }

  /** `intersects` of server.js decides exactly whether a non-parallel edge meets the record's parallelogram. */
  lemma IntersectsSquareMeansParallelogram(s: Surface, v1: Vec3, v2: Vec3, e: Edge)
    requires Frame(s, v1, v2)
    ensures IntersectsSquare(s, e) <==> !Parallel(s, e) && MeetsParallelogram(s.point, v1, v2, e)
  {
    if IntersectsSquare(s, e) {
      LocalSound(s, v1, v2, e);
      var q := Local(s, e).value;
      assert Meets(s.point, v1, v2, e, Param(s, e), q.x, q.y);
    }
    if !Parallel(s, e) && MeetsParallelogram(s.point, v1, v2, e) {
      var c, a, b :| 0.0 <= c <= 1.0 && 0.0 <= a <= 1.0 && 0.0 <= b <= 1.0 && Meets(s.point, v1, v2, e, c, a, b);
      LocalComplete(s, v1, v2, e, c, a, b);
    }
  }

  /** The outcome does not depend on the length of the normal: js/server.js normalises it (and inverts
      the matrix built from the normalised vector) while this model keeps the plain cross product. */
  lemma NormalScaleInvariant(s: Surface, t: Surface, v1: Vec3, v2: Vec3, k: real, e: Edge)
    requires k != 0.0 && t.normal == Scale(k, s.normal) && t.point == s.point
    requires Frame(s, v1, v2) && Frame(t, v1, v2)
    ensures Intersects(s, e) == Intersects(t, e)
  {
    IntersectsMeansTriangle(s, v1, v2, e);
    IntersectsMeansTriangle(t, v1, v2, e);
    DotScale(k, s.normal, Direction(e));
    if Dot(s.normal, Direction(e)) != 0.0 {
      MulNonZero(k, Dot(s.normal, Direction(e)));
    }
  }

  lemma MulNonZero(a: real, b: real)
    requires a != 0.0 && b != 0.0
    ensures a * b != 0.0
  {
    if a > 0.0 && b > 0.0 { MulPositive(a, b, a * b); }
    if a < 0.0 && b < 0.0 { MulPositive(-a, -b, a * b); }
    if a > 0.0 && b < 0.0 { MulPositive(a, -b, -(a * b)); }
    if a < 0.0 && b > 0.0 { MulPositive(-a, b, -(a * b)); }
  }

  /** The record of the unit triangle in the plane z = 0, with the identity as its inverse matrix. */
  const UnitSurface: Surface := Surface(Identity, Vec3(0.0, 0.0, 1.0), Zero)

  /** An edge crossing the unit triangle at (0.25, 0.25) hits it. */
  lemma ExampleHit()
    ensures Intersects(UnitSurface, Edge(Vec3(0.25, 0.25, -1.0), Vec3(0.25, 0.25, 1.0)))
  {
    VerticalEdge(0.25, 0.25, -1.0, 1.0);
    assert Local(UnitSurface, Edge(Vec3(0.25, 0.25, -1.0), Vec3(0.25, 0.25, 1.0))) == Some(Vec3(0.25, 0.25, 0.0));
  }

  /** An edge crossing the plane of the unit triangle at (2, 2), outside the triangle, misses it. */
  lemma ExampleWide()
    ensures !Intersects(UnitSurface, Edge(Vec3(2.0, 2.0, -1.0), Vec3(2.0, 2.0, 1.0)))
  {
    VerticalEdge(2.0, 2.0, -1.0, 1.0);
  }

  /** An edge that stops below the plane of the unit triangle misses it. */
  lemma ExampleShort()
    ensures !Intersects(UnitSurface, Edge(Vec3(0.25, 0.25, -1.0), Vec3(0.25, 0.25, -0.5)))
  {
    var low := Edge(Vec3(0.25, 0.25, -1.0), Vec3(0.25, 0.25, -0.5));
    assert Offset(UnitSurface, low.p1) == -1.0 && Offset(UnitSurface, low.p2) == -0.5;
  }

  /** A vertical edge from height z1 below the plane z = 0 to z2 above it crosses the unit surface at (x, y). */
  lemma VerticalEdge(x: real, y: real, z1: real, z2: real)
    requires z1 < 0.0 < z2
    ensures Local(UnitSurface, Edge(Vec3(x, y, z1), Vec3(x, y, z2))) == Some(Vec3(x, y, 0.0))
  {
    var e := Edge(Vec3(x, y, z1), Vec3(x, y, z2));
    var c := Param(UnitSurface, e);
    assert Offset(UnitSurface, At(e, c)) == 0.0;
    assert At(e, c).z == 0.0;
    assert Straddles(UnitSurface, e);
    ApplyIdentity(Add(Sub(Scale(c, Direction(e)), Zero), e.p1));
  }

  /** A vertical edge through (0.75, 0.75) hits the unit square ... */
  lemma SquareOnlyHit()
    ensures IntersectsSquare(UnitSurface, Edge(Vec3(0.75, 0.75, -1.0), Vec3(0.75, 0.75, 1.0)))
  {
    VerticalEdge(0.75, 0.75, -1.0, 1.0);
    assert Local(UnitSurface, Edge(Vec3(0.75, 0.75, -1.0), Vec3(0.75, 0.75, 1.0))) == Some(Vec3(0.75, 0.75, 0.0));
  }

  /** ... but misses the unit triangle, since 0.75 + 0.75 > 1. */
  lemma TriangleMiss()
    ensures !Intersects(UnitSurface, Edge(Vec3(0.75, 0.75, -1.0), Vec3(0.75, 0.75, 1.0)))
  {
    VerticalEdge(0.75, 0.75, -1.0, 1.0);
  }
}
