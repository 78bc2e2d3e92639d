/** Exact real-number stand-ins for the three.js Vector3 and Matrix3 operations the server uses. */
module Vectors {

  datatype Vec3 = Vec3(x: real, y: real, z: real)

  /** A 3x3 matrix stored row by row, the order in which Matrix3.set takes its arguments. */
  datatype Mat3 = Mat3(r0: Vec3, r1: Vec3, r2: Vec3)

  const Zero: Vec3 := Vec3(0.0, 0.0, 0.0)

  const Identity: Mat3 := Mat3(Vec3(1.0, 0.0, 0.0), Vec3(0.0, 1.0, 0.0), Vec3(0.0, 0.0, 1.0))

  function Add(a: Vec3, b: Vec3): Vec3 {
    Vec3(a.x + b.x, a.y + b.y, a.z + b.z)
  }

  /** The `minus` helper of the server: componentwise a - b. */
  function Sub(a: Vec3, b: Vec3): Vec3 {
    Vec3(a.x - b.x, a.y - b.y, a.z - b.z)
  }

  function Scale(k: real, a: Vec3): Vec3 {
    Vec3(k * a.x, k * a.y, k * a.z)
  }

  function Dot(a: Vec3, b: Vec3): real {
    a.x * b.x + a.y * b.y + a.z * b.z
  }

  function Cross(a: Vec3, b: Vec3): Vec3 {
    Vec3(a.y * b.z - a.z * b.y, a.z * b.x - a.x * b.z, a.x * b.y - a.y * b.x)
  }

  /** Vector3.distanceToSquared */
  function DistSq(a: Vec3, b: Vec3): real {
    Dot(Sub(a, b), Sub(a, b))
  }

  /** Vector3.applyMatrix3: the matrix-vector product. */
  function Apply(m: Mat3, v: Vec3): Vec3 {
    Vec3(Dot(m.r0, v), Dot(m.r1, v), Dot(m.r2, v))
  }

  /** The matrix whose columns are a, b and c. */
  function Columns(a: Vec3, b: Vec3, c: Vec3): Mat3 {
    Mat3(Vec3(a.x, b.x, c.x), Vec3(a.y, b.y, c.y), Vec3(a.z, b.z, c.z))
  }

  function Col0(m: Mat3): Vec3 { Vec3(m.r0.x, m.r1.x, m.r2.x) }
  function Col1(m: Mat3): Vec3 { Vec3(m.r0.y, m.r1.y, m.r2.y) }
  function Col2(m: Mat3): Vec3 { Vec3(m.r0.z, m.r1.z, m.r2.z) }

  function Mul(a: Mat3, b: Mat3): Mat3 {
    Mat3(
      Vec3(Dot(a.r0, Col0(b)), Dot(a.r0, Col1(b)), Dot(a.r0, Col2(b))),
      Vec3(Dot(a.r1, Col0(b)), Dot(a.r1, Col1(b)), Dot(a.r1, Col2(b))),
      Vec3(Dot(a.r2, Col0(b)), Dot(a.r2, Col1(b)), Dot(a.r2, Col2(b))))
  }

  /** `inv` is the two-sided inverse of `m`, as Matrix3.getInverse returns it when `m` is regular. */
  predicate IsInverse(inv: Mat3, m: Mat3) {
    Mul(inv, m) == Identity && Mul(m, inv) == Identity
  }

  lemma ApplyMul(a: Mat3, b: Mat3, v: Vec3)
    ensures Apply(a, Apply(b, v)) == Apply(Mul(a, b), v)
  {
  }

  lemma ApplyIdentity(v: Vec3)
    ensures Apply(Identity, v) == v
  {
  }

  lemma ApplyColumns(a: Vec3, b: Vec3, c: Vec3, s: real, t: real, u: real)
    ensures Apply(Columns(a, b, c), Vec3(s, t, u)) == Add(Add(Scale(s, a), Scale(t, b)), Scale(u, c))
  {
  }

  lemma CrossOrthogonal(a: Vec3, b: Vec3)
    ensures Dot(a, Cross(a, b)) == 0.0
    ensures Dot(b, Cross(a, b)) == 0.0
  {
  }

  lemma DotAdd(a: Vec3, b: Vec3, n: Vec3)
    ensures Dot(Add(a, b), n) == Dot(a, n) + Dot(b, n)
  {
  }

  lemma DotScale(k: real, a: Vec3, n: Vec3)
    ensures Dot(Scale(k, a), n) == k * Dot(a, n)
  {
  }

  lemma DotSelfNonNegative(a: Vec3)
    ensures Dot(a, a) >= 0.0
    ensures a != Zero ==> Dot(a, a) > 0.0
  {
    Square(a.x, a.x * a.x);
    Square(a.y, a.y * a.y);
    Square(a.z, a.z * a.z);
    assert a != Zero ==> a.x != 0.0 || a.y != 0.0 || a.z != 0.0;
  }

  /** `s` is the square of `t`; the product is passed in so that it stays a plain term for the solver. */
  lemma Square(t: real, s: real)
    requires s == t * t
    ensures s >= 0.0
    ensures t != 0.0 ==> s > 0.0
  {
    if t > 0.0 {
      MulPositive(t, t, s);
    } else if t < 0.0 {
      MulPositive(-t, -t, s);
    }
  }

  lemma MulPositive(a: real, b: real, p: real)
    requires a > 0.0 && b > 0.0 && p == a * b
    ensures p > 0.0
  {
  }

  /** Lagrange's identity, the three-dimensional form of the Cauchy-Schwarz inequality. */
  lemma Lagrange(a: Vec3, b: Vec3)
    ensures Dot(a, a) * Dot(b, b) - Dot(a, b) * Dot(a, b) == Dot(Cross(a, b), Cross(a, b))
  {
  }
}
