/** A player's plane in js/server.js: its guides, its trail and collision-record ring buffers, and what
    `deploy_player`, `update_trail` and the per-plane half of `update_location` do to them. */
module Planes {
  import opened Wrappers
  import opened Vectors
  import opened Config
  import opened Bounds
  import opened Blocks
  import opened SpatialGrid
  import opened Collision
  import opened Cells
  import opened Flight

  /** A guide point of the plane: where it was after the previous tick and where it is now. */
  datatype Guide = Guide(prev: Vec3, coords: Vec3)

  /** The wing-tip positions of one tick, as the trail keeps them. */
  datatype TrailEntry = TrailEntry(left: Vec3, right: Vec3)

  /** The four guide objects `draw_plane` attaches to the plane. */
  datatype Guides = Guides(left: Guide, right: Guide, top: Guide, bottom: Guide)

  /** The mouse and roll inputs the client last reported. */
  datatype Controls = Controls(xFrac: real, yFrac: real, click: bool, roll: string)

  /** The state of a player object. `ticks` is the source's `seq` counter. */
  datatype Player = Player(
    name: string,
    score: nat,
    controls: Controls,
    ticks: nat,
    planeId: nat,
    deployed: bool,
    gas: int,
    pos: Vec3,
    guides: Guides,
    cell: Idx,
    trail: seq<TrailEntry>,
    data: seq<Datum>)
  {
    const click: bool := controls.click
    const left: Guide := guides.left
    const right: Guide := guides.right
    const top: Guide := guides.top
    const bottom: Guide := guides.bottom
  }

  /** What the `Player` constructor sets before deploying: the four guides of `draw_plane` all start at the
      origin, and the plane fields `deploy_player` fills in are placeholders. */
  function NewPlayer(name: string): (p: Player)
    ensures p.name == name && p.score == 0 && p.ticks == 1 && !p.deployed
    ensures p.controls == Controls(0.0, 0.0, false, "None")
  {
    var origin := Guide(Zero, Zero);
    Player(name, 0, Controls(0.0, 0.0, false, "None"), 1, 0, false, InitialGas, Zero,
           Guides(origin, origin, origin, origin), Idx(0, 0, 0), [], [])
  }

  /** The spawn point `deploy_player` draws: a point at distance outer_radius - buffer from the centre. */
  predicate OnSpawnSphere(v: Vec3) {
    DistSq(v, Center) == (OuterRadius - Buffer) * (OuterRadius - Buffer)
  }

  /** Every spawn point lies inside the wraparound box, hence inside the grid. */
  lemma SpawnInBox(v: Vec3)
    requires OnSpawnSphere(v)
    ensures InBox(v)
  {
    var d := Sub(v, Center);
    Square(d.x, d.x * d.x);
    Square(d.y, d.y * d.y);
    Square(d.z, d.z * d.z);
    SquareAtMost(d.x, d.x * d.x);
    SquareAtMost(d.y, d.y * d.y);
    SquareAtMost(d.z, d.z * d.z);
  }

  lemma SquareAtMost(t: real, s: real)
    requires s == t * t && s <= 32400.0
    ensures -180.0 <= t <= 180.0
  {
    if t > 180.0 { MulPositive(t - 180.0, t + 180.0, s - 32400.0); }
    if t < -180.0 { MulPositive(-t - 180.0, -t + 180.0, s - 32400.0); }
  }

  /** `deploy_player`: a fresh plane id, a full tank, the spawn point and its cell, and both ring buffers
      filled to length with copies of the starting wing-tips and with padding. `leftPos` and `rightPos` are the
      world positions of the wing guides at the spawn point. */
  function Deploy(g: Grid, p: Player, id: nat, spawn: Vec3, leftPos: Vec3, rightPos: Vec3): (r: (Grid, Player))
    requires WellFormed(g) && OnSpawnSphere(spawn)
    ensures r.1.planeId == id && r.1.deployed && r.1.gas == InitialGas && r.1.pos == spawn
    ensures r.1.guides == p.guides.(left := p.left.(coords := leftPos), right := p.right.(coords := rightPos))
    ensures r.1.name == p.name && r.1.score == p.score && r.1.ticks == p.ticks && r.1.controls == p.controls
    ensures InRange(r.1.cell) && Contains(r.1.cell, spawn)
    ensures r.1.trail == Filled(TrailEntry(leftPos, rightPos), TrailLength)
    ensures r.1.data == Filled(Padding(r.1.cell), 2 * (TrailLength - 1))
    ensures r.0 == AddPlane(g, r.1.cell, id)
  {
    SpawnInBox(spawn);
    WrappedHasCell(spawn);
    var c := CellOf(spawn).value;
    var q := p.(planeId := id, deployed := true, gas := InitialGas, pos := spawn,
                guides := p.guides.(left := p.left.(coords := leftPos), right := p.right.(coords := rightPos)), cell := c,
                trail := Filled(TrailEntry(leftPos, rightPos), TrailLength),
                data := Filled(Padding(c), 2 * (TrailLength - 1)));
    (AddPlane(g, c, id), q)
  }

  /** The point `get_collision_data` files a record under: p1 + v1/2 + v2/2. */
  function Centre(p1: Vec3, p2: Vec3, p3: Vec3): (r: Vec3)
    ensures r == Scale(0.5, Add(p2, p3))
  {
    Add(Add(p1, Scale(0.5, Sub(p2, p1))), Scale(0.5, Sub(p3, p1)))
  }

  /** `get_collision_data(p1, p2, p3, id)`: the record of triangle p1, p2, p3 with the given identity, filed
      under the cell of its centre; None where the centre is outside the grid and `get_cell` fails. */
  function MakeRecord(p1: Vec3, p2: Vec3, p3: Vec3, inv: Mat3, owner: nat, stamp: nat, second: bool): (r: Option<Datum>)
    ensures r.Some? <==> CellOf(Scale(0.5, Add(p2, p3))).Some?
    ensures r.Some? ==> r.value.Record? && r.value.owner == owner && r.value.cell == CellOf(Scale(0.5, Add(p2, p3))).value
    ensures r.Some? ==> r.value.surface == MakeSurface(p1, p2, p3, inv) && r.value.stamp == stamp && r.value.second == second
  {
    match CellOf(Centre(p1, p2, p3))
    case None => None
    case Some(c) => Some(Record(MakeSurface(p1, p2, p3, inv), owner, stamp, second, c))
  }

  /** The two records `update_trail` appends for the quadrilateral swept by the wing guides since the
      previous tick: triangles (L.prev, L, R.prev) and (R, L, R.prev). */
  function NewRecords(p: Player, inv1: Mat3, inv2: Mat3): (r: Option<(Datum, Datum)>)
    ensures r.Some? <==> CellOf(Scale(0.5, Add(p.left.coords, p.right.prev))).Some?
    ensures r.Some? ==> r.value.0.Record? && r.value.1.Record? && r.value.0 != r.value.1
    ensures r.Some? ==> r.value.0.owner == p.planeId && r.value.1.owner == p.planeId
    ensures r.Some? ==> r.value.0.stamp == p.ticks && r.value.1.stamp == p.ticks
    ensures r.Some? ==> r.value.0.cell == r.value.1.cell == CellOf(Scale(0.5, Add(p.left.coords, p.right.prev))).value
    ensures r.Some? ==> r.value.0.surface == MakeSurface(p.left.prev, p.left.coords, p.right.prev, inv1)
    ensures r.Some? ==> r.value.1.surface == MakeSurface(p.right.coords, p.left.coords, p.right.prev, inv2)
    ensures r.Some? ==> !r.value.0.second && r.value.1.second
  {
    match CellOf(Scale(0.5, Add(p.left.coords, p.right.prev)))
    case None => None
    case Some(c) =>
      var d1 := MakeRecord(p.left.prev, p.left.coords, p.right.prev, inv1, p.planeId, p.ticks, false);
      var d2 := MakeRecord(p.right.coords, p.left.coords, p.right.prev, inv2, p.planeId, p.ticks, true);
      Some((d1.value, d2.value))
  }

  /** The cell bookkeeping of `update_trail`: the two evicted entries leave their cells and the two new
      records join theirs; nothing else changes. */
  function Refile(g: Grid, out1: Datum, out2: Datum, in1: Datum, in2: Datum): (h: Grid)
    requires out1.cell in g && out2.cell in g && in1.cell in g && in2.cell in g
    ensures SameShape(g, h)
    ensures forall c :: c in g ==> h[c].planes == g[c].planes
    ensures forall c :: c in g ==> h[c].trails == (g[c].trails - FiledUnder([out1, out2], c)) + FiledUnder([in1, in2], c)
  {
    var h := AddTrail(AddTrail(RemoveTrail(RemoveTrail(g, out1), out2), in1), in2);
    forall c | c in g
      ensures h[c].trails == (g[c].trails - FiledUnder([out1, out2], c)) + FiledUnder([in1, in2], c)
    {
      RefileAt(g, out1, out2, in1, in2, c);
    }
    h
  }

  lemma RefileAt(g: Grid, out1: Datum, out2: Datum, in1: Datum, in2: Datum, c: Idx)
    requires out1.cell in g && out2.cell in g && in1.cell in g && in2.cell in g && c in g
    ensures AddTrail(AddTrail(RemoveTrail(RemoveTrail(g, out1), out2), in1), in2)[c].trails
         == (g[c].trails - FiledUnder([out1, out2], c)) + FiledUnder([in1, in2], c)
  {
    var g1 := RemoveTrail(g, out1);
    var g2 := RemoveTrail(g1, out2);
    var g3 := AddTrail(g2, in1);
    var h := AddTrail(g3, in2);
    assert c in g1 && c in g2 && c in g3;
    Steps(g[c].trails, g1[c].trails, g2[c].trails, g3[c].trails, h[c].trails, Only(out1, c), Only(out2, c), Only(in1, c), Only(in2, c));
    FiledUnderPair(out1, out2, c);
    FiledUnderPair(in1, in2, c);
  }

  lemma Steps<T>(t: set<T>, t1: set<T>, t2: set<T>, t3: set<T>, t4: set<T>, o1: set<T>, o2: set<T>, n1: set<T>, n2: set<T>)
    requires t1 == t - o1 && t2 == t1 - o2 && t3 == t2 + n1 && t4 == t3 + n2
    ensures t4 == (t - (o1 + o2)) + (n1 + n2)
  {
  }

  lemma FiledUnderPair(a: Datum, b: Datum, c: Idx)
    ensures FiledUnder([a, b], c) == Only(a, c) + Only(b, c)
  {
    var s := [a, b];
    assert forall d :: d in s <==> d == a || d == b;
  }

  /** `update_trail`: evict the two oldest records from their cells and the buffer, append and file the two
      new ones, and push the current wing-tips onto the trail while shifting off the oldest entry. Both
      buffers keep their length and are first-in first-out; None where the new records' cell does not exist. */
  function UpdateTrail(g: Grid, p: Player, inv1: Mat3, inv2: Mat3): (r: Option<(Grid, Player)>)
    requires |p.data| >= 2 && p.data[0].cell in g && p.data[1].cell in g && WellFormed(g)
    ensures r.Some? <==> NewRecords(p, inv1, inv2).Some?
    ensures r.Some? ==> r.value.1.(trail := p.trail, data := p.data) == p
    ensures r.Some? ==> |r.value.1.data| == |p.data| && r.value.1.data[..|p.data| - 2] == p.data[2..]
    ensures r.Some? ==> r.value.1.data[|p.data| - 2..] == [NewRecords(p, inv1, inv2).value.0, NewRecords(p, inv1, inv2).value.1]
    ensures r.Some? && |p.trail| > 0 ==> |r.value.1.trail| == |p.trail| && r.value.1.trail[..|p.trail| - 1] == p.trail[1..]
    ensures r.Some? && |p.trail| > 0 ==> r.value.1.trail[|p.trail| - 1] == TrailEntry(p.left.coords, p.right.coords)
    ensures r.Some? ==> SameShape(g, r.value.0) && forall c :: c in g ==> r.value.0[c].planes == g[c].planes
    ensures r.Some? ==> r.value.0 == Refile(g, p.data[0], p.data[1], NewRecords(p, inv1, inv2).value.0, NewRecords(p, inv1, inv2).value.1)
  {
    match NewRecords(p, inv1, inv2)
    case None => None
    case Some((d1, d2)) =>
      var h := Refile(g, p.data[0], p.data[1], d1, d2);
      var entry := TrailEntry(p.left.coords, p.right.coords);
      Some((h, p.(trail := Shift(p.trail, entry), data := p.data[2..] + [d1, d2])))
  }

  /** `push` followed by `shift`: the newest element goes in at the end and the oldest leaves at the front. */
  function Shift<T>(s: seq<T>, x: T): (r: seq<T>)
    ensures |s| > 0 ==> |r| == |s| && r[..|s| - 1] == s[1..] && r[|s| - 1] == x
    ensures |s| == 0 ==> r == []
  {
    (s + [x])[1..]
  }

  /** The two segments of each guide pair that `getEdges` hands to the hit test. */
  function Edges(p: Player): (r: seq<Edge>)
    ensures |r| == 4
    ensures r[0].p1 == p.left.coords && r[1].p1 == p.right.coords && r[2].p1 == p.top.coords && r[3].p1 == p.bottom.coords
    ensures r[0].p2 == p.right.prev && r[1].p2 == p.left.prev && r[2].p2 == p.bottom.prev && r[3].p2 == p.top.prev
  {
    [Edge(p.left.coords, p.right.prev), Edge(p.right.coords, p.left.prev),
     Edge(p.top.coords, p.bottom.prev), Edge(p.bottom.coords, p.top.prev)]
  }

  /** What the library computes for one tick of one plane: the position after the turn and forward step,
      the world positions of the four guides once the bounds check has run, and the inverse matrices of the
      two new records. */
  datatype TickInput = TickInput(moved: Vec3, left: Vec3, right: Vec3, top: Vec3, bottom: Vec3, inv1: Mat3, inv2: Mat3)

  /** Positions of the guides after a tick, in the order `crashed` is tried. */
  function GuidePositions(p: Player): seq<Vec3> {
    [p.left.coords, p.right.coords, p.top.coords, p.bottom.coords]
  }

  /** The part of `update_location` before the trail update: count the tick, wrap the position and the wing
      guides, shift every guide's coordinates, move the plane to the cell of its new position, and update
      the gas. */
  function Steer(p: Player, t: TickInput): (q: Player)
    ensures q.ticks == p.ticks + 1
    ensures q.gas == NextGas(p.click, p.gas)
    ensures InBox(q.pos) && q.pos == AlterBounds(t.moved, p.left.coords, p.right.coords).pos
    ensures q.left.coords == t.left && q.right.coords == t.right && q.top.coords == t.top && q.bottom.coords == t.bottom
    ensures q.top.prev == p.top.coords && q.bottom.prev == p.bottom.coords
    ensures q.left.prev == AlterBounds(t.moved, p.left.coords, p.right.coords).left
    ensures q.right.prev == AlterBounds(t.moved, p.left.coords, p.right.coords).right
    ensures InRange(q.cell) && Contains(q.cell, q.pos)
    ensures q.trail == p.trail && q.data == p.data
    ensures q.name == p.name && q.score == p.score && q.planeId == p.planeId && q.deployed == p.deployed
    ensures q.controls == p.controls
  {
    var alt := AlterBounds(t.moved, p.left.coords, p.right.coords);
    WrappedHasCell(t.moved);
    p.(ticks := p.ticks + 1, pos := alt.pos,
       guides := Guides(Guide(alt.left, t.left), Guide(alt.right, t.right),
                        Guide(p.top.coords, t.top), Guide(p.bottom.coords, t.bottom)),
       cell := CellOf(alt.pos).value, gas := NextGas(p.click, p.gas))
  }

  /** The part of `update_location` that moves one plane: `Steer`, then the plane leaves its old cell's
      plane set for its new one's, then `update_trail`. The crash test is left to the caller. */
  function Advance(g: Grid, p: Player, t: TickInput): (r: Option<(Grid, Player)>)
    requires WellFormed(g) && p.cell in g && |p.data| >= 2 && p.data[0].cell in g && p.data[1].cell in g
    ensures r.Some? <==> NewRecords(Steer(p, t), t.inv1, t.inv2).Some?
    ensures r.Some? ==> r.value.1.(trail := p.trail, data := p.data) == Steer(p, t)
    ensures r.Some? ==> |r.value.1.data| == |p.data| && r.value.1.data[..|p.data| - 2] == p.data[2..]
    ensures r.Some? && |p.trail| > 0 ==> |r.value.1.trail| == |p.trail|
    ensures r.Some? ==> SameShape(g, r.value.0)
    ensures r.Some? ==> forall c :: c in g ==> r.value.0[c].planes == MovePlane(g, p.cell, r.value.1.cell, p.planeId)[c].planes
  {
    var q := Steer(p, t);
    var g1 := MovePlane(g, p.cell, q.cell, p.planeId);
    SameShapeWellFormed(g, g1);
    UpdateTrail(g1, q, t.inv1, t.inv2)
  }

  /** After a tick the plane's cell and every cell its buffer names are cells of the grid. */
  lemma AdvanceFiled(g: Grid, p: Player, t: TickInput)
    requires WellFormed(g) && p.cell in g && |p.data| >= 2 && CellsIn(p.data, g)
    ensures Advance(g, p, t).Some? ==> Advance(g, p, t).value.1.cell in Advance(g, p, t).value.0
    ensures Advance(g, p, t).Some? ==> CellsIn(Advance(g, p, t).value.1.data, Advance(g, p, t).value.0)
  {
    if Advance(g, p, t).Some? {
      var q := Steer(p, t);
      var g1 := MovePlane(g, p.cell, q.cell, p.planeId);
      SameShapeWellFormed(g, g1);
      UpdateTrailFiled(g1, q, t.inv1, t.inv2);
    }
  }

  /** What a tick does to the buffer and the cells: the buffer loses its two oldest entries and gains the two
      new records, and the cells lose the former and gain the latter. */
  lemma AdvanceRefiles(g: Grid, p: Player, t: TickInput)
    requires WellFormed(g) && p.cell in g && |p.data| >= 2 && CellsIn(p.data, g)
    requires Advance(g, p, t).Some?
    ensures var (h, q) := Advance(g, p, t).value;
      var n := NewRecords(Steer(p, t), t.inv1, t.inv2).value;
      && q.data == p.data[2..] + [n.0, n.1]
      && forall c :: c in g ==> h[c].trails == (g[c].trails - FiledUnder([p.data[0], p.data[1]], c)) + FiledUnder([n.0, n.1], c)
  {
    var q0 := Steer(p, t);
    var g1 := MovePlane(g, p.cell, q0.cell, p.planeId);
    SameShapeWellFormed(g, g1);
    var (h, q) := UpdateTrail(g1, q0, t.inv1, t.inv2).value;
    var n := NewRecords(q0, t.inv1, t.inv2).value;
    var m := |p.data|;
    assert q.data[..m - 2] == p.data[2..] && q.data[m - 2..] == [n.0, n.1];
    assert q.data == q.data[..m - 2] + q.data[m - 2..];
  }

  /** The two new records of `update_trail` are filed under cells of the grid. */
  lemma UpdateTrailFiled(g: Grid, p: Player, inv1: Mat3, inv2: Mat3)
    requires |p.data| >= 2 && CellsIn(p.data, g) && WellFormed(g)
    ensures UpdateTrail(g, p, inv1, inv2).Some? ==> CellsIn(UpdateTrail(g, p, inv1, inv2).value.1.data, g)
  {
    var r := UpdateTrail(g, p, inv1, inv2);
    if r.Some? {
      var d := NewRecords(p, inv1, inv2).value;
      assert InRange(d.0.cell) && InRange(d.1.cell);
      ShiftedIn(p.data, r.value.1.data, d.0, d.1, g);
    }
  }

  lemma ShiftedIn(prev: seq<Datum>, next: seq<Datum>, a: Datum, b: Datum, g: Grid)
    requires |prev| >= 2 && |next| == |prev| && next[..|prev| - 2] == prev[2..] && next[|prev| - 2..] == [a, b]
    requires CellsIn(prev, g) && a.cell in g && b.cell in g
    ensures CellsIn(next, g)
  {
    var n := |prev|;
    forall i | 0 <= i < n ensures next[i].cell in g {
      if i < n - 2 {
        assert next[i] == next[..n - 2][i] == prev[2..][i];
      } else {
        assert next[i] == next[n - 2..][i - (n - 2)];
      }
    }
  }
}
