/** The spatial grid: cell indices, `get_cell`, and the neighbour sets `initialize_cells` precomputes. */
module SpatialGrid {
  import opened Wrappers
  import opened Vectors
  import opened Config
  import opened Bounds
  import opened Blocks

  function Ceil(r: real): int {
    -((-r).Floor)
  }

  /** Number of cells per side. */
  const N: int := 8

  /** The source computes the number of cells per side as 2 * ceil(outer_radius / cell_dim). */
  lemma NValue()
    ensures N == 2 * Ceil(OuterRadius / CellDim)
  {
  }

  predicate InRange(c: Idx) {
    0 <= c.i < N && 0 <= c.j < N && 0 <= c.k < N
  }

  predicate AxisContains(a: int, t: real) {
    a as real * CellDim <= t < (a + 1) as real * CellDim
  }

  /** The closed-open cube of index `c` contains `v`. */
  predicate Contains(c: Idx, v: Vec3) {
    AxisContains(c.i, v.x) && AxisContains(c.j, v.y) && AxisContains(c.k, v.z)
  }

  function AxisIndex(t: real): (a: int)
    ensures AxisContains(a, t)
  {
    (t / CellDim).Floor
  }

  lemma AxisIndexUnique(a: int, t: real)
    requires AxisContains(a, t)
    ensures a == AxisIndex(t)
  {
    assert a as real <= t / CellDim < (a + 1) as real;
  }

  /** `get_cell`: the cell whose cube contains `v`, or None where the source's lookup
      `cells[x][y][z]` leaves the grid. */
  function CellOf(v: Vec3): (r: Option<Idx>)
    ensures r.Some? ==> InRange(r.value) && Contains(r.value, v)
    ensures r.None? ==> forall c :: InRange(c) ==> !Contains(c, v)
  {
    var c := Idx(AxisIndex(v.x), AxisIndex(v.y), AxisIndex(v.z));
    if InRange(c) then Some(c)
    else
      assert forall d :: Contains(d, v) ==> d == c by {
        forall d | Contains(d, v) ensures d == c {
          AxisIndexUnique(d.i, v.x);
          AxisIndexUnique(d.j, v.y);
          AxisIndexUnique(d.k, v.z);
        }
      }
      None
  }

  /** The arena cube [0, 2 * outer_radius)^3 is exactly covered by the grid. */
  predicate InCube(v: Vec3) {
    0.0 <= v.x < 2.0 * OuterRadius && 0.0 <= v.y < 2.0 * OuterRadius && 0.0 <= v.z < 2.0 * OuterRadius
  }

  lemma CubeHasCell(v: Vec3)
    requires InCube(v)
    ensures CellOf(v).Some?
  {
    NValue();
    assert 0.0 <= v.x / CellDim < 8.0;
    assert 0.0 <= v.y / CellDim < 8.0;
    assert 0.0 <= v.z / CellDim < 8.0;
  }

  /** Every position the wraparound leaves behind indexes a cell of the grid. */
  lemma WrappedHasCell(v: Vec3)
    ensures CellOf(Wrap(v)).Some?
  {
    CubeHasCell(Wrap(v));
  }

  function AxisLow(a: int): int { if a - 1 < 0 then 0 else a - 1 }
  function AxisHigh(a: int): int { if a + 2 > N then N else a + 2 }

  /** Indices along one axis that differ from `a` by at most one and lie in the grid. */
  function AxisNeighbors(a: int): (r: set<int>)
    ensures forall t :: t in r <==> a - 1 <= t <= a + 1 && 0 <= t < N
  {
    Interval(AxisLow(a), AxisHigh(a))
  }

  /** `get_neighbors`: the cell itself and every existing cell among its 26 surrounding ones. */
  function Neighbors(c: Idx): (r: set<Idx>)
    ensures forall d :: d in r <==> InRange(d) && -1 <= d.i - c.i <= 1 && -1 <= d.j - c.j <= 1 && -1 <= d.k - c.k <= 1
  {
    var r := Block(AxisNeighbors(c.i), AxisNeighbors(c.j), AxisNeighbors(c.k));
    assert forall d :: InRange(d) && -1 <= d.i - c.i <= 1 && -1 <= d.j - c.j <= 1 && -1 <= d.k - c.k <= 1 ==> d in r by {
      forall d | InRange(d) && -1 <= d.i - c.i <= 1 && -1 <= d.j - c.j <= 1 && -1 <= d.k - c.k <= 1
        ensures d in r
      {
        assert d == Idx(d.i, d.j, d.k);
        assert d.i in AxisNeighbors(c.i) && d.j in AxisNeighbors(c.j) && d.k in AxisNeighbors(c.k);
      }
    }
    r
  }

  lemma NeighborsReflexive(c: Idx)
    requires InRange(c)
    ensures c in Neighbors(c)
  {
  }

  lemma NeighborsSymmetric(c: Idx, d: Idx)
    requires InRange(c) && InRange(d)
    ensures d in Neighbors(c) <==> c in Neighbors(d)
  {
  }

  /** A cell has between 8 (a corner) and 27 (an interior cell) neighbours, itself included. */
  lemma NeighborsSize(c: Idx)
    requires InRange(c)
    ensures 8 <= |Neighbors(c)| <= 27
  {
    BoxSize(AxisLow(c.i), AxisHigh(c.i), AxisLow(c.j), AxisHigh(c.j), AxisLow(c.k), AxisHigh(c.k));
    AxisWidth(c.i);
    AxisWidth(c.j);
    AxisWidth(c.k);
    ProductRange(Width(AxisLow(c.i), AxisHigh(c.i)), Width(AxisLow(c.j), AxisHigh(c.j)), Width(AxisLow(c.k), AxisHigh(c.k)));
  }

  /** Along one axis a cell has two neighbouring indices at the faces of the grid and three elsewhere. */
  lemma AxisWidth(a: int)
    requires 0 <= a < N
    ensures Width(AxisLow(a), AxisHigh(a)) == 2 || Width(AxisLow(a), AxisHigh(a)) == 3
  {
  }

  lemma ProductRange(x: int, y: int, z: int)
    requires (x == 2 || x == 3) && (y == 2 || y == 3) && (z == 2 || z == 3)
    ensures 8 <= x * (y * z) <= 27
  {
    if y == 2 {
      if z == 2 { assert y * z == 4; } else { assert y * z == 6; }
    } else {
      if z == 2 { assert y * z == 6; } else { assert y * z == 9; }
    }
  }

  /** Every index of the grid. */
  function AllCells(): set<Idx> {
    Block(Interval(0, N), Interval(0, N), Interval(0, N))
  }

  lemma AllCellsSpec(c: Idx)
    ensures c in AllCells() <==> InRange(c)
  {
    if InRange(c) {
      assert c == Idx(c.i, c.j, c.k);
    }
  }
}
