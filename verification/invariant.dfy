/** The bookkeeping invariant of a round in js/server.js: the player map, the planes filed in the cells and
    the records filed in the cells agree with one another. Every handler and timer callback keeps it. */
module RoundInvariant {
  import opened Wrappers
  import opened Config
  import opened JsValues
  import opened Names
  import opened Blocks
  import opened SpatialGrid
  import opened Cells
  import opened Flight
  import opened Planes
  import opened Game

  /** What holds of the plane filed under `id`: it carries that id, is deployed and was numbered before
      `curId`; it is registered in the plane set of its own cell; both ring buffers are full; every entry of
      the collision buffer names a cell, and every record in it is its own and stamped no later than its
      tick counter. */
  ghost predicate PlaneOk(g: Grid, p: Player, id: nat, curId: nat) {
    && p.planeId == id && p.deployed && 1 <= id < curId
    && p.cell in g && id in g[p.cell].planes
    && |p.data| == 2 * (TrailLength - 1) && |p.trail| == TrailLength
    && CellsIn(p.data, g)
    && OwnRecords(p.data, id, p.ticks)
    && DistinctRecords(p.data)
  }

  /** Every record of the buffer belongs to plane `id` and was made at tick `ticks` or earlier. */
  predicate OwnRecords(data: seq<Datum>, id: nat, ticks: nat) {
    forall i :: 0 <= i < |data| && data[i].Record? ==> data[i].owner == id && data[i].stamp <= ticks
  }

  /** No record occurs twice in the buffer, so evicting the two oldest entries unfiles no younger record.
      The source's records are distinct objects; here their stamps and `second` flags keep them apart. */
  predicate DistinctRecords(data: seq<Datum>) {
    forall i, j :: 0 <= i < j < |data| && data[i].Record? ==> data[i] != data[j]
  }

  /** Every record in the buffer of a plane of the map is filed under its cell: the converse of `TrailsIn`,
      so `check_collisions` can find every live record. */
  ghost predicate BuffersFiled(g: Grid, ps: map<nat, Player>) {
    forall id, i :: id in ps && 0 <= i < |ps[id].data| && ps[id].data[i].Record? ==>
      ps[id].data[i].cell in g && ps[id].data[i] in g[ps[id].data[i].cell].trails
  }

  /** Every entry filed in a cell is a record naming that cell, whose owner is in the map and still holds it
      in its collision buffer. */
  ghost predicate TrailsIn(g: Grid, ps: map<nat, Player>) {
    forall c, d :: c in g && d in g[c].trails ==> d.Record? && d.cell == c && d.owner in ps && d in ps[d.owner].data
  }

  /** Every plane id filed in a cell belongs to a plane in the map whose cell that is. */
  ghost predicate PlanesIn(g: Grid, ps: map<nat, Player>) {
    forall c, x :: c in g && x in g[c].planes ==> x in ps && ps[x].cell == c
  }

  ghost predicate EachPlaneOk(g: Grid, ps: map<nat, Player>, curId: nat) {
    forall id :: id in ps ==> PlaneOk(g, ps[id], id, curId)
  }

  /** The grid, the player map and the id counter agree. */
  ghost predicate Sound(g: Grid, ps: map<nat, Player>, curId: nat) {
    && 1 <= curId
    && EachPlaneOk(g, ps, curId)
    && TrailsIn(g, ps) && PlanesIn(g, ps) && BuffersFiled(g, ps)
  }

  /** The invariant of the round: the grid has its shape, and it agrees with the map and the counter. */
  ghost predicate Consistent(r: Round) {
    WellFormed(r.grid) && Sound(r.grid, r.players, r.curId)
  }

  // ---------------------------------------------------------------------------------------------------
  // The invariant on its own components
  // ---------------------------------------------------------------------------------------------------

  /** The fields of a plane the invariant speaks about. */
  predicate SamePlane(p: Player, q: Player) {
    q.planeId == p.planeId && q.deployed == p.deployed && q.cell == p.cell && q.data == p.data
    && q.trail == p.trail && q.ticks == p.ticks
  }

  /** Changing a plane's name, score or controls keeps the invariant. */
  lemma SoundRelabel(g: Grid, ps: map<nat, Player>, n: nat, id: nat, ps': map<nat, Player>)
    requires Sound(g, ps, n) && id in ps && ps'.Keys == ps.Keys && SamePlane(ps[id], ps'[id])
    requires forall k :: k in ps && k != id ==> ps'[k] == ps[k]
    ensures Sound(g, ps', n)
  {
    forall k | k in ps' ensures PlaneOk(g, ps'[k], k, n) {
      assert PlaneOk(g, ps[k], k, n);
    }
  }

  /** A fresh plane under the next id, with padding-filled buffers, filed in its cell: the counter moves on
      and the invariant holds of the grown map. */
  lemma SoundDeploy(g: Grid, ps: map<nat, Player>, n: nat, p: Player)
    requires Sound(g, ps, n) && p.cell in g
    requires p.planeId == n && p.deployed && |p.trail| == TrailLength && |p.data| == 2 * (TrailLength - 1)
    requires forall i :: 0 <= i < |p.data| ==> p.data[i] == Padding(p.cell)
    ensures Sound(AddPlane(g, p.cell, n), ps[n := p], n + 1)
  {
    var g', ps' := AddPlane(g, p.cell, n), ps[n := p];
    forall k | k in ps' ensures PlaneOk(g', ps'[k], k, n + 1) {
      if k != n {
        assert PlaneOk(g, ps[k], k, n);
      }
    }
    forall c, d | c in g' && d in g'[c].trails
      ensures d.Record? && d.cell == c && d.owner in ps' && d in ps'[d.owner].data
    {
      assert d in g[c].trails;
      assert PlaneOk(g, ps[d.owner], d.owner, n);
    }
    forall c, x | c in g' && x in g'[c].planes ensures x in ps' && ps'[x].cell == c {
      if x != n || c != p.cell {
        assert x in g[c].planes;
        assert PlaneOk(g, ps[x], x, n);
      }
    }
  }

  /** `destroy_player` on its components: with the plane out of the map, its records purged from their
      cells and its id out of its cell, the invariant holds again. */
  lemma SoundDestroy(g: Grid, ps: map<nat, Player>, n: nat, id: nat, g': Grid)
    requires Sound(g, ps, n) && id in ps && SameShape(g, g')
    requires forall c :: c in g ==> g'[c].trails == g[c].trails - FiledUnder(ps[id].data, c)
    requires forall c :: c in g ==> g'[c].planes == g[c].planes - Just(ps[id].cell, c, id)
    ensures Sound(g', ps - {id}, n)
  {
    var ps' := ps - {id};
    var p := ps[id];
    forall k | k in ps' ensures PlaneOk(g', ps'[k], k, n) {
      assert PlaneOk(g, ps[k], k, n);
    }
    forall c, d | c in g' && d in g'[c].trails
      ensures d.Record? && d.cell == c && d.owner in ps' && d in ps'[d.owner].data
    {
      assert d in g[c].trails && d !in FiledUnder(p.data, c);
    }
    forall c, x | c in g' && x in g'[c].planes ensures x in ps' && ps'[x].cell == c {
      assert x in g[c].planes && x !in Just(p.cell, c, id);
    }
  }

  /** One tick of plane `id` on its components: the plane `q` keeps its id and buffer lengths, moves from
      its cell to `q.cell`, drops the two oldest entries of its buffer from their cells, and appends and
      files two records of its own stamped with its new tick count. */
  ghost predicate MoveStep(g: Grid, ps: map<nat, Player>, id: nat, g': Grid, q: Player, a: Datum, b: Datum) {
    && id in ps && SameShape(g, g') && |ps[id].data| >= 2
    && MovedRecords(ps[id], q, a, b) && q.cell in g && a.cell in g && b.cell in g
    && (forall c :: c in g ==> g'[c].planes == (g[c].planes - Just(ps[id].cell, c, id)) + Just(q.cell, c, id))
    && TrailsMoved(g, g', ps[id].data, a, b)
  }

  /** The plane after the tick: same id, still deployed, one tick on, trail of full length, and a buffer
      shifted by two records of its own made at the new tick. */
  predicate MovedRecords(p: Player, q: Player, a: Datum, b: Datum)
    requires |p.data| >= 2
  {
    && q.planeId == p.planeId && q.deployed && |q.trail| == TrailLength && q.ticks == p.ticks + 1
    && q.data == p.data[2..] + [a, b]
    && a.Record? && a.owner == p.planeId && a.stamp == q.ticks
    && b.Record? && b.owner == p.planeId && b.stamp == q.ticks && a != b
  }

  /** The cells lose the two oldest entries of the buffer and gain the two new records. */
  ghost predicate TrailsMoved(g: Grid, g': Grid, data: seq<Datum>, a: Datum, b: Datum)
    requires |data| >= 2 && g.Keys == g'.Keys
  {
    forall c :: c in g ==> g'[c].trails == (g[c].trails - FiledUnder([data[0], data[1]], c)) + FiledUnder([a, b], c)
  }

  /** A tick of one plane keeps the invariant. */
  lemma SoundMove(g: Grid, ps: map<nat, Player>, n: nat, id: nat, g': Grid, q: Player, a: Datum, b: Datum)
    requires Sound(g, ps, n) && MoveStep(g, ps, id, g', q, a, b)
    ensures Sound(g', ps[id := q], n)
  {
    MovePlanesOk(g, ps, n, id, g', q, a, b);
    assert PlaneOk(g, ps[id], id, n);
    MoveTrailsIn(g, ps, id, g', q, a, b);
    MovePlanesIn(g, ps, n, id, g', q, a, b);
    MoveBuffersFiled(g, ps, n, id, g', q, a, b);
  }

  lemma MovePlanesOk(g: Grid, ps: map<nat, Player>, n: nat, id: nat, g': Grid, q: Player, a: Datum, b: Datum)
    requires Sound(g, ps, n) && MoveStep(g, ps, id, g', q, a, b)
    ensures EachPlaneOk(g', ps[id := q], n)
  {
    var p, ps' := ps[id], ps[id := q];
    assert PlaneOk(g, p, id, n);
    MovedPlaneOk(g, g', p, q, id, n, a, b);
    forall k | k in ps' ensures PlaneOk(g', ps'[k], k, n) {
      if k != id {
        assert PlaneOk(g, ps[k], k, n);
        assert k !in Just(p.cell, ps[k].cell, id);
      }
    }
  }

  lemma MoveTrailsIn(g: Grid, ps: map<nat, Player>, id: nat, g': Grid, q: Player, a: Datum, b: Datum)
    requires TrailsIn(g, ps) && id in ps && |ps[id].data| >= 2 && ps[id].planeId == id && g.Keys == g'.Keys
    requires MovedRecords(ps[id], q, a, b) && TrailsMoved(g, g', ps[id].data, a, b)
    ensures TrailsIn(g', ps[id := q])
  {
    var p, ps' := ps[id], ps[id := q];
    forall c, d | c in g' && d in g'[c].trails
      ensures d.Record? && d.cell == c && d.owner in ps' && d in ps'[d.owner].data
    {
      FiledUnderPair(a, b, c);
      FiledUnderPair(p.data[0], p.data[1], c);
      if d == a || d == b {
        InShifted(p.data, q.data, a, b, d);
      } else {
        assert d in g[c].trails;
        if d.owner == id {
          InShifted(p.data, q.data, a, b, d);
        }
      }
    }
  }

  /** What `update_trail` leaves in the buffer: the two new records and every old entry but the first two. */
  lemma InShifted(prev: seq<Datum>, next: seq<Datum>, a: Datum, b: Datum, d: Datum)
    requires |prev| >= 2 && next == prev[2..] + [a, b]
    requires d == a || d == b || (d in prev && d != prev[0] && d != prev[1])
    ensures d in next
  {
    if d != a && d != b {
      KeptRecord(prev, d);
    }
  }

  lemma MovePlanesIn(g: Grid, ps: map<nat, Player>, n: nat, id: nat, g': Grid, q: Player, a: Datum, b: Datum)
    requires Sound(g, ps, n) && MoveStep(g, ps, id, g', q, a, b)
    ensures PlanesIn(g', ps[id := q])
  {
    var ps' := ps[id := q];
    forall c, x | c in g' && x in g'[c].planes ensures x in ps' && ps'[x].cell == c {
      if x != id {
        assert x in g[c].planes;
      }
    }
  }

  /** An entry of a buffer other than its first two is in the rest of the buffer. */
  lemma KeptRecord(data: seq<Datum>, d: Datum)
    requires |data| >= 2 && d in data && d != data[0] && d != data[1]
    ensures d in data[2..]
  {
    var i :| 0 <= i < |data| && data[i] == d;
    assert data[2..][i - 2] == d;
  }

  /** Two new records of a later tick, appended to a buffer of distinct records, keep it distinct. */
  lemma ShiftedDistinct(prev: seq<Datum>, next: seq<Datum>, a: Datum, b: Datum, ticks: nat)
    requires |prev| >= 2 && DistinctRecords(prev) && next == prev[2..] + [a, b]
    requires forall i :: 0 <= i < |prev| && prev[i].Record? ==> prev[i].stamp <= ticks
    requires a.Record? && b.Record? && a.stamp > ticks && b.stamp > ticks && a != b
    ensures DistinctRecords(next)
  {
    var m := |next|;
    forall i, j | 0 <= i < j < m && next[i].Record? ensures next[i] != next[j] {
      if j < m - 2 {
        assert next[i] == prev[i + 2] && next[j] == prev[j + 2];
      } else if i < m - 2 {
        assert next[i] == prev[i + 2];
        assert next[j] == a || next[j] == b;
      }
    }
  }

  /** A tick keeps every live record filed: the moved plane's surviving records were not among the two
      evicted ones, its new records are filed, and the records of other planes belong to other owners. */
  lemma MoveBuffersFiled(g: Grid, ps: map<nat, Player>, n: nat, id: nat, g': Grid, q: Player, a: Datum, b: Datum)
    requires Sound(g, ps, n) && MoveStep(g, ps, id, g', q, a, b)
    ensures BuffersFiled(g', ps[id := q])
  {
    var p, ps' := ps[id], ps[id := q];
    assert PlaneOk(g, p, id, n);
    forall k, i | k in ps' && 0 <= i < |ps'[k].data| && ps'[k].data[i].Record?
      ensures ps'[k].data[i].cell in g' && ps'[k].data[i] in g'[ps'[k].data[i].cell].trails
    {
      if k != id {
        assert PlaneOk(g, ps[k], k, n);
        StillFiled(g, g', p.data, a, b, ps[k].data[i]);
      } else if i < |q.data| - 2 {
        assert q.data[i] == p.data[i + 2];
        assert p.data[0] != p.data[i + 2] && p.data[1] != p.data[i + 2];
        StillFiled(g, g', p.data, a, b, q.data[i]);
      } else {
        FiledUnderPair(a, b, q.data[i].cell);
      }
    }
  }

  /** A filed record that is neither of the two evicted entries stays filed. */
  lemma StillFiled(g: Grid, g': Grid, data: seq<Datum>, a: Datum, b: Datum, d: Datum)
    requires |data| >= 2 && g.Keys == g'.Keys && TrailsMoved(g, g', data, a, b)
    requires d.cell in g && d in g[d.cell].trails && d != data[0] && d != data[1]
    ensures d in g'[d.cell].trails
  {
    FiledUnderPair(data[0], data[1], d.cell);
  }

  /** The moved plane satisfies the per-plane part of the invariant in the new grid. */
  lemma MovedPlaneOk(g: Grid, g': Grid, p: Player, q: Player, id: nat, n: nat, a: Datum, b: Datum)
    requires PlaneOk(g, p, id, n) && SameShape(g, g')
    requires q.planeId == id && q.deployed && q.cell in g && |q.trail| == TrailLength && q.ticks == p.ticks + 1
    requires q.data == p.data[2..] + [a, b]
    requires a.Record? && a.owner == id && a.stamp == q.ticks && a.cell in g
    requires b.Record? && b.owner == id && b.stamp == q.ticks && b.cell in g
    requires id in g'[q.cell].planes && a != b
    ensures PlaneOk(g', q, id, n)
  {
    ShiftedDistinct(p.data, q.data, a, b, p.ticks);
    var m := |q.data|;
    forall i | 0 <= i < m
      ensures q.data[i].cell in g' && (q.data[i].Record? ==> q.data[i].owner == id && q.data[i].stamp <= q.ticks)
    {
      if i < m - 2 {
        assert q.data[i] == p.data[i + 2];
      } else {
        assert q.data[i] == a || q.data[i] == b;
      }
    }
  }

  // ---------------------------------------------------------------------------------------------------
  // Every handler and timer callback keeps the invariant
  // ---------------------------------------------------------------------------------------------------

  lemma BootConsistent()
    ensures Consistent(Boot())
  {
  }

  lemma OpenedConsistent(r: Round)
    requires Consistent(r)
    ensures Consistent(Opened(r))
  {
  }

  lemma StatusConsistent(r: Round, m: Status)
    requires Consistent(r)
    ensures Consistent(ApplyStatus(r, m))
  {
    match KeyOf(m.id)
    case None =>
    case Some(k) =>
      if k in r.players {
        SoundRelabel(r.grid, r.players, r.curId, k, ApplyStatus(r, m).players);
      }
  }

  /** A "status" event the server survives keeps the invariant. */
  lemma OnStatusConsistent(r: Round, p: StatusPayload)
    requires Consistent(r) && OnStatus(r, p).Some?
    ensures Consistent(OnStatus(r, p).value)
  {
    if p.Message? {
      StatusConsistent(r, p.m);
    }
  }

  /** A plane of a consistent round has what `destroy_player` and `update_location` need of it. */
  lemma ConsistentPlaced(r: Round, id: nat)
    requires Consistent(r)
    ensures Placed(r, id) && Movable(r, id)
  {
    if id in r.players {
      assert PlaneOk(r.grid, r.players[id], id, r.curId);
    }
  }

  lemma DeployIntoConsistent(r: Round, p: Player, s: Spawn)
    requires Consistent(r) && OnSpawnSphere(s.at)
    ensures Consistent(DeployInto(r, p, s))
  {
    var d := Deploy(r.grid, p, r.curId, s.at, s.left, s.right);
    SoundDeploy(r.grid, r.players, r.curId, d.1);
    SameShapeWellFormed(r.grid, d.0);
  }

  /** "start" keeps the invariant, whether it opens a round or joins the running one. */
  lemma StartConsistent(r: Round, req: JsValue, s: Spawn)
    requires Consistent(r) && OnSpawnSphere(s.at)
    ensures Consistent(Start(r, req, s))
  {
    OpenedConsistent(r);
    DeployIntoConsistent(Opened(r), NewPlayer(NewName(NamesOf(Opened(r).players), req)), s);
  }

  lemma RespawnConsistent(r: Round, s: Spawn)
    requires Consistent(r) && OnSpawnSphere(s.at)
    ensures Consistent(Respawn(r, s))
  {
    if |r.pending| > 0 {
      DeployIntoConsistent(r.(pending := r.pending[1..]), r.pending[0], s);
    }
  }

  lemma DestroyConsistent(r: Round, id: nat, reason: string, redeploy: bool)
    requires Consistent(r)
    ensures Placed(r, id) && Consistent(Destroy(r, id, reason, redeploy))
  {
    ConsistentPlaced(r, id);
    if id in r.players {
      var r' := Destroy(r, id, reason, redeploy);
      SoundDestroy(r.grid, r.players, r.curId, id, r'.grid);
      SameShapeWellFormed(r.grid, r'.grid);
    }
  }

  lemma DisconnectConsistent(r: Round, id: nat)
    requires Consistent(r)
    ensures Placed(r, id) && Consistent(Disconnect(r, id))
  {
    DestroyConsistent(r, id, "disconnection", false);
  }

  lemma DestroyBySocketConsistent(r: Round, reason: string, redeploy: bool)
    requires Consistent(r)
    ensures (r.slot.Some? ==> Placed(r, r.slot.value)) && Consistent(DestroyBySocket(r, reason, redeploy))
  {
    if r.slot.Some? {
      DestroyConsistent(r, r.slot.value, reason, redeploy);
    }
  }

  lemma CountDownConsistent(r: Round)
    requires Consistent(r) && r.inProgress
    ensures Consistent(CountDown(r))
  {
  }

  lemma AwardPointConsistent(r: Round, id: nat)
    requires Consistent(r) && id in r.players
    ensures Consistent(AwardPoint(r, id))
  {
    SoundRelabel(r.grid, r.players, r.curId, id, AwardPoint(r, id).players);
  }

  /** A tick of a plane of a consistent round is a `MoveStep` with the two records `update_trail` makes. */
  lemma AdvanceStep(r: Round, id: nat, t: TickInput)
    requires Consistent(r) && id in r.players && Advance(r.grid, r.players[id], t).Some?
    ensures var (g, q) := Advance(r.grid, r.players[id], t).value;
      var n := NewRecords(Steer(r.players[id], t), t.inv1, t.inv2).value;
      MoveStep(r.grid, r.players, id, g, q, n.0, n.1)
  {
    var p := r.players[id];
    assert PlaneOk(r.grid, p, id, r.curId);
    var (g, q) := Advance(r.grid, p, t).value;
    var n := NewRecords(Steer(p, t), t.inv1, t.inv2).value;
    AdvanceFiled(r.grid, p, t);
    AdvanceRefiles(r.grid, p, t);
    assert q.cell in g;
    assert forall c :: c in r.grid ==> g[c].planes == MovePlane(r.grid, p.cell, q.cell, id)[c].planes;
  }

  /** `update_location` keeps the invariant, whether the plane survives the tick or crashes. */
  lemma UpdateLocationConsistent(r: Round, id: nat, t: TickInput)
    requires Consistent(r) && id in r.players
    ensures Movable(r, id)
    ensures UpdateLocation(r, id, t).Some? ==> Consistent(UpdateLocation(r, id, t).value.0)
  {
    ConsistentPlaced(r, id);
    var p := r.players[id];
    assert PlaneOk(r.grid, p, id, r.curId);
    if Advance(r.grid, p, t).Some? {
      UpdateLocationSettles(r, id, t);
      var (g, q) := Advance(r.grid, p, t).value;
      var n := NewRecords(Steer(p, t), t.inv1, t.inv2).value;
      AdvanceStep(r, id, t);
      SettleConsistent(r, id, g, q, n.0, n.1);
    }
  }

  lemma SettleConsistent(r: Round, id: nat, g: Grid, q: Player, a: Datum, b: Datum)
    requires Consistent(r) && MoveStep(r.grid, r.players, id, g, q, a, b) && q.cell in g && CellsIn(q.data, g)
    ensures Consistent(Settle(r, id, g, q))
  {
    var r1 := Moved(r, id, g, q);
    SoundMove(r.grid, r.players, r.curId, id, g, q, a, b);
    SameShapeWellFormed(r.grid, g);
    assert Consistent(r1);
    if Crashed(q.pos, GuidePositions(q)) {
      DestroyConsistent(r1, id, "crash", true);
    }
  }

  /** In a consistent round every record a plane can hit belongs to a plane in the map, so the
      `players.get(...).score++` of `check_collisions` always finds its owner. */
  lemma HitOwnerLive(r: Round, p: Player, hit: Option<Datum>)
    requires Consistent(r) && p.cell in r.grid && ValidHit(r.grid, p, hit) && hit.Some?
    ensures hit.value.owner in r.players && hit.value.owner != p.planeId
  {
    var d := hit.value;
    assert d in Hits(r.grid, p);
    var c :| c in Neighbors(p.cell) && c in r.grid && d in r.grid[c].trails;
  }

  /** In a consistent round the records `check_collisions` may stop at are exactly the records in the buffers
      of the other planes of the map that are filed in a neighbouring cell and crossed by an edge: nothing a
      live plane left behind is missed, and nothing else is found. */
  lemma HitsAreLiveRecords(r: Round, p: Player, d: Datum)
    requires Consistent(r) && p.cell in r.grid
    ensures d in Hits(r.grid, p) <==>
      (d.Record? && d.owner != p.planeId && d.owner in r.players && d in r.players[d.owner].data
       && d.cell in Neighbors(p.cell) && HitsPlane(d.surface, p))
  {
    if d.Record? && d.owner in r.players && d in r.players[d.owner].data {
      var i :| 0 <= i < |r.players[d.owner].data| && r.players[d.owner].data[i] == d;
      assert d.cell in r.grid && d in r.grid[d.cell].trails;
    }
  }

  /** `check_collisions` keeps the invariant and, in a consistent round, never fails. */
  lemma CheckCollisionsConsistent(r: Round, p: Player, hit: Option<Datum>)
    requires Consistent(r) && p.cell in r.grid && ValidHit(r.grid, p, hit)
    ensures Placed(r, p.planeId) && CheckCollisions(r, p, hit).Some?
    ensures Consistent(CheckCollisions(r, p, hit).value)
  {
    ConsistentPlaced(r, p.planeId);
    if hit.Some? {
      HitOwnerLive(r, p, hit);
      var o := hit.value.owner;
      AwardPointConsistent(r, o);
      DestroyConsistent(AwardPoint(r, o), p.planeId, "collision", true);
    }
  }

  /** The plane `update_location` hands back lies in a cell of the grid it leaves behind. */
  lemma UpdateLocationCell(r: Round, id: nat, t: TickInput)
    requires Consistent(r) && id in r.players
    ensures Movable(r, id)
    ensures UpdateLocation(r, id, t).Some? ==> UpdateLocation(r, id, t).value.1.cell in UpdateLocation(r, id, t).value.0.grid
  {
    UpdateLocationConsistent(r, id, t);
    var p := r.players[id];
    assert PlaneOk(r.grid, p, id, r.curId);
    if UpdateLocation(r, id, t).Some? {
      assert Steer(p, t).cell == Advance(r.grid, p, t).value.1.cell;
    }
  }

  /** One plane's turn of the world update: `update_location`, then `check_collisions` on the plane object it
      returns. From a consistent round the turn always completes and leaves a consistent round. */
  lemma TurnConsistent(r: Round, id: nat, t: TickInput, hit: Option<Datum>)
    requires Consistent(r) && id in r.players && UpdateLocation(r, id, t).Some?
    requires (UpdateLocationCell(r, id, t); var (r1, q) := UpdateLocation(r, id, t).value; ValidHit(r1.grid, q, hit))
    ensures var (r1, q) := UpdateLocation(r, id, t).value;
      Placed(r1, q.planeId) && CheckCollisions(r1, q, hit).Some? && Consistent(CheckCollisions(r1, q, hit).value)
  {
    UpdateLocationConsistent(r, id, t);
    UpdateLocationCell(r, id, t);
    var (r1, q) := UpdateLocation(r, id, t).value;
    CheckCollisionsConsistent(r1, q, hit);
  }
}
