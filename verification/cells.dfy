/** The contents of the spatial grid: which planes and which collision records each cell holds. */
module Cells {
  import opened Blocks
  import opened SpatialGrid
  import opened Collision

  /** An entry of a plane's collision-record buffer. `Padding` is the filler `deploy_player` pushes, which
      names a cell but is never filed in one; `Record` is what `get_collision_data` builds. The source tells
      records apart by object identity; here the owner's plane id, the owner's tick counter at creation and
      which of the two records of that tick it is play that part. */
  datatype Datum =
    | Padding(cell: Idx)
    | Record(surface: Surface, owner: nat, stamp: nat, second: bool, cell: Idx)

  /** One cube of the grid: the ids of the planes whose centre is in it and the records filed under it. The
      source also stores in each cell the neighbour set `initialize_cells` precomputes; nothing changes it
      afterwards, so the model computes it, as `Neighbors`, where `check_collisions` reads it. */
  datatype Cell = Cell(planes: set<nat>, trails: set<Datum>)

  type Grid = map<Idx, Cell>

  /** Exactly the in-range indices have a cell. */
  ghost predicate WellFormed(g: Grid) {
    forall c :: c in g <==> InRange(c)
  }

  /** Two grids have the same cells. */
  predicate SameShape(g: Grid, h: Grid) {
    g.Keys == h.Keys
  }

  lemma SameShapeWellFormed(g: Grid, h: Grid)
    requires WellFormed(g) && SameShape(g, h)
    ensures WellFormed(h)
  {
  }

  /** `initialize_cells`: an empty cell for every index of the n x n x n grid. */
  function InitializeCells(): (g: Grid)
    ensures WellFormed(g)
    ensures forall c :: c in g ==> g[c].planes == {} && g[c].trails == {}
  {
    forall c ensures c in AllCells() <==> InRange(c) {
      AllCellsSpec(c);
    }
    map c | c in AllCells() :: Cell({}, {})
  }

  /** `cell.trails.add(d)` on the record's own cell. */
  function AddTrail(g: Grid, d: Datum): (r: Grid)
    requires d.cell in g
    ensures SameShape(g, r)
    ensures forall c :: c in g ==> r[c].planes == g[c].planes
    ensures forall c :: c in g ==> r[c].trails == g[c].trails + Only(d, c)
  {
    g[d.cell := g[d.cell].(trails := g[d.cell].trails + {d})]
  }

  /** `cell.trails.delete(d)` on the record's own cell; a no-op for padding, which was never added. */
  function RemoveTrail(g: Grid, d: Datum): (r: Grid)
    requires d.cell in g
    ensures SameShape(g, r)
    ensures forall c :: c in g ==> r[c].planes == g[c].planes
    ensures forall c :: c in g ==> r[c].trails == g[c].trails - Only(d, c)
  {
    g[d.cell := g[d.cell].(trails := g[d.cell].trails - {d})]
  }

  function AddPlane(g: Grid, c: Idx, id: nat): (r: Grid)
    requires c in g
    ensures SameShape(g, r)
    ensures forall e :: e in g ==> r[e].trails == g[e].trails
    ensures forall e :: e in g ==> r[e].planes == if e == c then g[e].planes + {id} else g[e].planes
  {
    g[c := g[c].(planes := g[c].planes + {id})]
  }

  function RemovePlane(g: Grid, c: Idx, id: nat): (r: Grid)
    requires c in g
    ensures SameShape(g, r)
    ensures forall e :: e in g ==> r[e].trails == g[e].trails
    ensures forall e :: e in g ==> r[e].planes == if e == c then g[e].planes - {id} else g[e].planes
  {
    g[c := g[c].(planes := g[c].planes - {id})]
  }

  /** The three lines of `update_location` that take the plane out of its old cell's plane set and put it
      into its new cell's. */
  function MovePlane(g: Grid, from: Idx, to: Idx, id: nat): (r: Grid)
    requires from in g && to in g
    ensures SameShape(g, r)
    ensures forall e :: e in g ==> r[e].trails == g[e].trails
    ensures forall e :: e in g ==> r[e].planes == (g[e].planes - Just(from, e, id)) + Just(to, e, id)
    ensures id in r[to].planes
  {
    AddPlane(RemovePlane(g, from, id), to, id)
  }

  /** `{id}` in cell `c` itself, nothing elsewhere. */
  function Just(c: Idx, e: Idx, id: nat): (r: set<nat>)
    ensures id in r <==> e == c
    ensures forall x :: x in r ==> x == id
  {
    if e == c then {id} else {}
  }

  /** Every entry of the buffer names a cell of the grid. */
  predicate CellsIn(data: seq<Datum>, g: Grid) {
    forall i :: 0 <= i < |data| ==> data[i].cell in g
  }

  /** The entries of `data` that name cell `c`. */
  function FiledUnder(data: seq<Datum>, c: Idx): set<Datum> {
    set d | d in data && d.cell == c
  }

  /** The entry itself if it names cell `c`, else nothing. */
  function Only(d: Datum, c: Idx): (r: set<Datum>)
    ensures d in r <==> d.cell == c
    ensures forall e :: e in r ==> e == d
  {
    if d.cell == c then {d} else {}
  }

  lemma FiledUnderCons(data: seq<Datum>, c: Idx)
    requires |data| > 0
    ensures FiledUnder(data, c) == FiledUnder(data[1..], c) + Only(data[0], c)
  {
    assert data == [data[0]] + data[1..];
  }

  lemma Minus<T>(t: set<T>, t1: set<T>, t2: set<T>, a: set<T>, b: set<T>)
    requires t1 == t - b && t2 == t1 - a
    ensures t2 == t - (a + b)
  {
  }

  /** The loop of `destroy_player` that deletes each of a plane's records from its cell: every cell loses
      exactly the entries of the buffer that name it, and nothing else changes. */
  function PurgeAll(g: Grid, data: seq<Datum>): (r: Grid)
    requires CellsIn(data, g)
    ensures SameShape(g, r)
    ensures forall c :: c in g ==> r[c].planes == g[c].planes
    ensures forall c :: c in g ==> r[c].trails == g[c].trails - FiledUnder(data, c)
    decreases |data|
  {
    if |data| == 0 then g
    else
      var h := RemoveTrail(g, data[0]);
      var r := PurgeAll(h, data[1..]);
      forall c | c in g ensures r[c].trails == g[c].trails - FiledUnder(data, c) {
        FiledUnderCons(data, c);
        Minus(g[c].trails, h[c].trails, r[c].trails, FiledUnder(data[1..], c), Only(data[0], c));
      }
      r
  }
}
