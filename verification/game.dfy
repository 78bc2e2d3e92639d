/** The round of js/server.js: the player map, the grid, the id counter, the clock, the respawn queue and
    the events broadcast to the clients, with the socket handlers and timer callbacks that change them. */
module Game {
  import opened Wrappers
  import opened Vectors
  import opened Config
  import opened JsValues
  import opened Names
  import opened SpatialGrid
  import opened Collision
  import opened Cells
  import opened Flight
  import opened Planes

  /** A line of the final standings. */
  datatype Standing = Standing(name: string, score: nat)

  /** What the server broadcasts. */
  datatype Event =
    | Added(id: nat)
    | Time(seconds: nat)
    | Result(standings: seq<Standing>)
    | Destroyed(id: nat, reason: string)
    | Scored(id: nat)

  /** The server's module-level state. `pending` holds the destroyed players whose respawn timer is running,
      oldest first. `slot` is the one entry `socket_to_plane_id[socket] = cur_id` ever writes (see `DeployInto`). */
  datatype Round = Round(
    inProgress: bool,
    secondsLeft: nat,
    curId: nat,
    players: map<nat, Player>,
    grid: Grid,
    pending: seq<Player>,
    slot: Option<nat>,
    log: seq<Event>)

  /** Where `deploy_player` puts a plane: the random point it draws and the world positions of the two wing
      guides there, which the library computes. */
  datatype Spawn = Spawn(at: Vec3, left: Vec3, right: Vec3)

  /** A status message as a client sends it; a field the client leaves out is JsUndefined. */
  datatype Status = Status(id: JsValue, xFrac: JsValue, yFrac: JsValue, click: JsValue, roll: JsValue)

  /** The payload of a "status" event: an object, read as a Status, or a bare value. A bare number, string or
      boolean has no `id` property; a bare null or undefined makes reading `status.id` throw. */
  datatype StatusPayload = Message(m: Status) | Bare(v: JsValue)

  /** Reading `status.id` throws a TypeError exactly for a null or missing payload. */
  predicate Throws(p: StatusPayload) {
    p.Bare? && (p.v.JsNull? || p.v.JsUndefined?)
  }

  /** The state when the server has loaded: no round, the cells built, ids from 1. */
  function Boot(): (r: Round)
    ensures !r.inProgress && r.players == map[] && r.curId == 1 && r.secondsLeft == InitialSeconds
    ensures WellFormed(r.grid) && r.pending == [] && r.log == []
    ensures forall c :: c in r.grid ==> r.grid[c].planes == {} && r.grid[c].trails == {}
  {
    Round(false, InitialSeconds, 1, map[], InitializeCells(), [], None, [])
  }

  /** The names of the players in the map. */
  function NamesOf(players: map<nat, Player>): (r: set<string>)
    ensures forall k :: k in players ==> players[k].name in r
    ensures forall s :: s in r ==> exists k :: k in players && players[k].name == s
  {
    set k | k in players :: players[k].name
  }

  /** `deploy_player`: the plane gets the next id and is put in the map and in its cell. The source records
      the id with `socket_to_plane_id[player.socket] = cur_id`; `socket_to_plane_id` is a Map used as a plain
      object, so every socket is converted to the same property name "[object Object]" and each deploy
      overwrites the one entry, which `slot` keeps. */
  function DeployInto(r: Round, p: Player, s: Spawn): (r': Round)
    requires WellFormed(r.grid) && OnSpawnSphere(s.at)
    ensures r'.curId == r.curId + 1 && r'.slot == Some(r.curId)
    ensures r.curId in r'.players
    ensures (r'.grid, r'.players[r.curId]) == Deploy(r.grid, p, r.curId, s.at, s.left, s.right)
    ensures r'.players == r.players[r.curId := r'.players[r.curId]]
    ensures r'.log == r.log + [Added(r.curId)]
    ensures r'.inProgress == r.inProgress && r'.secondsLeft == r.secondsLeft && r'.pending == r.pending
  {
    var d := Deploy(r.grid, p, r.curId, s.at, s.left, s.right);
    r.(grid := d.0, players := r.players[r.curId := d.1], curId := r.curId + 1, slot := Some(r.curId),
       log := r.log + [Added(r.curId)])
  }

  /** The round as the "start" handler leaves it before creating the player: reset when no round is running. */
  function Opened(r: Round): (r': Round)
    ensures r'.inProgress && (WellFormed(r.grid) ==> WellFormed(r'.grid))
    ensures r.inProgress ==> r' == r
    ensures !r.inProgress ==> r'.players == map[] && r'.curId == 1 && r'.secondsLeft == InitialSeconds
    ensures !r.inProgress ==> forall c :: c in r'.grid ==> r'.grid[c].planes == {} && r'.grid[c].trails == {}
    ensures r'.pending == r.pending && r'.log == r.log && r'.slot == r.slot
  {
    if r.inProgress then r
    else r.(inProgress := true, players := map[], grid := InitializeCells(), secondsLeft := InitialSeconds, curId := 1)
  }

  /** The "start" handler: open a round if none is running, then create the player under a name no player
      in the map has, and deploy it. */
  function Start(r: Round, req: JsValue, s: Spawn): (r': Round)
    requires WellFormed(r.grid) && OnSpawnSphere(s.at)
    ensures r'.inProgress && r'.curId == Opened(r).curId + 1 && Opened(r).curId in r'.players
    ensures r'.players == Opened(r).players[Opened(r).curId := r'.players[Opened(r).curId]]
    ensures r'.pending == r.pending && r'.log == r.log + [Added(Opened(r).curId)]
    ensures r'.slot == Some(Opened(r).curId)
  {
    var r1 := Opened(r);
    DeployInto(r1, NewPlayer(NewName(NamesOf(r1.players), req)), s)
  }

  /** The player "start" creates has a name no other player in the map has (the requested one when it is
      free), no points, and a deployed plane. */
  lemma StartNamesDistinct(r: Round, req: JsValue, s: Spawn)
    requires WellFormed(r.grid) && OnSpawnSphere(s.at)
    ensures var r' := Start(r, req, s); var q := r'.players[Opened(r).curId];
      && q.name == NewName(NamesOf(Opened(r).players), req) && q.score == 0 && q.deployed
      && forall k :: k in r'.players && k != Opened(r).curId ==> r'.players[k].name != q.name
  {
    var r1 := Opened(r);
    var name := NewName(NamesOf(r1.players), req);
    var r' := Start(r, req, s);
    NameFresh(r1.players, r'.players, r1.curId, name);
  }

  /** "start" opens a fresh round holding only the new player when none is running. */
  lemma StartFresh(r: Round, req: JsValue, s: Spawn)
    requires WellFormed(r.grid) && OnSpawnSphere(s.at) && !r.inProgress
    ensures Start(r, req, s).players.Keys == {1} && Start(r, req, s).secondsLeft == InitialSeconds
  {
    var r1, r' := Opened(r), Start(r, req, s);
    assert r1.players == map[] && r1.curId == 1;
    KeysOfUpdate(r1.players, r'.players, 1);
  }

  /** While a round runs, "start" adds the player under the next id and leaves the clock and the other
      players alone. */
  lemma StartJoin(r: Round, req: JsValue, s: Spawn)
    requires WellFormed(r.grid) && OnSpawnSphere(s.at) && r.inProgress
    ensures Start(r, req, s).players.Keys == r.players.Keys + {r.curId}
    ensures Start(r, req, s).secondsLeft == r.secondsLeft
    ensures forall k :: k in r.players && k != r.curId ==> Start(r, req, s).players[k] == r.players[k]
  {
    var r' := Start(r, req, s);
    KeysOfUpdate(r.players, r'.players, r.curId);
  }

  lemma KeysOfUpdate<V>(m: map<nat, V>, m': map<nat, V>, id: nat)
    requires id in m' && m' == m[id := m'[id]]
    ensures m'.Keys == m.Keys + {id}
  {
  }

  /** A name no player of `before` has differs from the name of every player the map keeps. */
  lemma NameFresh(before: map<nat, Player>, after: map<nat, Player>, id: nat, name: string)
    requires name !in NamesOf(before) && id in after && after[id].name == name
    requires after == before[id := after[id]]
    ensures forall k :: k in after && k != id ==> after[k].name != name
  {
  }

  /** A respawn timer firing: the oldest pending player is deployed again under a fresh id, keeping its
      name, score and tick counter. */
  function Respawn(r: Round, s: Spawn): (r': Round)
    requires WellFormed(r.grid) && OnSpawnSphere(s.at)
    ensures |r.pending| == 0 ==> r' == r
    ensures |r.pending| > 0 ==> r'.pending == r.pending[1..] && r'.curId == r.curId + 1
    ensures |r.pending| > 0 ==> r'.players.Keys == r.players.Keys + {r.curId}
    ensures |r.pending| > 0 ==> var q := r'.players[r.curId];
      q.planeId == r.curId && q.deployed && q.name == r.pending[0].name && q.score == r.pending[0].score
    ensures |r.pending| > 0 ==> r'.players == r.players[r.curId := r'.players[r.curId]]
    ensures |r.pending| > 0 ==>
      (r'.grid, r'.players[r.curId]) == Deploy(r.grid, r.pending[0], r.curId, s.at, s.left, s.right)
    ensures |r.pending| > 0 ==> r'.log == r.log + [Added(r.curId)] && r'.slot == Some(r.curId)
    ensures r'.inProgress == r.inProgress && r'.secondsLeft == r.secondsLeft
  {
    if |r.pending| == 0 then r
    else DeployInto(r.(pending := r.pending[1..]), r.pending[0], s)
  }

  /** The entries `destroy_player` needs of a plane in the map: its cell and the cells of its buffer exist. */
  predicate Placed(r: Round, id: nat) {
    id in r.players ==> r.players[id].cell in r.grid && CellsIn(r.players[id].data, r.grid)
  }

  /** `destroy_player` applied to plane `id`: the plane leaves the map and its cell, every record of its
      buffer leaves its cell, a "destroy" event goes out, and with `redeploy` the player joins the respawn
      queue. An id not in the map changes nothing. */
  function Destroy(r: Round, id: nat, reason: string, redeploy: bool): (r': Round)
    requires Placed(r, id)
    ensures id !in r.players ==> r' == r
    ensures id !in r'.players && r'.players.Keys == r.players.Keys - {id}
    ensures forall k :: k in r'.players ==> r'.players[k] == r.players[k]
    ensures SameShape(r.grid, r'.grid)
    ensures id in r.players ==> forall c :: c in r.grid ==>
      r'.grid[c].trails == r.grid[c].trails - FiledUnder(r.players[id].data, c)
    ensures id in r.players ==> forall c :: c in r.grid ==>
      r'.grid[c].planes == r.grid[c].planes - Just(r.players[id].cell, c, id)
    ensures id in r.players ==> r'.log == r.log + [Destroyed(id, reason)]
    ensures id in r.players && redeploy ==> r'.pending == r.pending + [r.players[id].(deployed := false)]
    ensures !redeploy ==> r'.pending == r.pending
    ensures r'.curId == r.curId && r'.inProgress == r.inProgress && r'.secondsLeft == r.secondsLeft && r'.slot == r.slot
  {
    if id !in r.players then r
    else
      var p := r.players[id];
      var g := RemovePlane(PurgeAll(r.grid, p.data), p.cell, id);
      r.(grid := g, players := r.players - {id}, log := r.log + [Destroyed(id, reason)],
         pending := if redeploy then r.pending + [p.(deployed := false)] else r.pending)
  }

  /** The controls a status message sets, each field replaced by its default where it has the wrong type. */
  function ControlsOf(m: Status): (c: Controls)
    ensures m.xFrac.JsNumber? ==> c.xFrac == m.xFrac.n
    ensures m.yFrac.JsNumber? ==> c.yFrac == m.yFrac.n
    ensures m.click.JsBool? ==> c.click == m.click.b
    ensures m.roll.JsString? ==> c.roll == m.roll.s
    ensures !m.xFrac.JsNumber? ==> c.xFrac == 0.0
    ensures !m.yFrac.JsNumber? ==> c.yFrac == 0.0
    ensures !m.click.JsBool? ==> !c.click
    ensures !m.roll.JsString? ==> c.roll == "None"
  {
    Controls(NumberOr0(m.xFrac), NumberOr0(m.yFrac), BoolOrFalse(m.click), StringOrNone(m.roll))
  }

  /** The "status" handler: the mouse and roll fields of the plane the message names are overwritten, each
      with its default where the field has the wrong type; a message naming no plane in the map is ignored. */
  function ApplyStatus(r: Round, m: Status): (r': Round)
    ensures r'.players.Keys == r.players.Keys && r'.grid == r.grid && r'.log == r.log && r'.curId == r.curId
    ensures r'.pending == r.pending && r'.inProgress == r.inProgress && r'.secondsLeft == r.secondsLeft
    ensures r'.slot == r.slot
    ensures KeyOf(m.id).None? || KeyOf(m.id).value !in r.players ==> r' == r
    ensures forall k :: k in r.players && KeyOf(m.id) != Some(k) ==> r'.players[k] == r.players[k]
    ensures forall k :: k in r.players && KeyOf(m.id) == Some(k) ==>
      r'.players[k] == r.players[k].(controls := ControlsOf(m))
  {
    match KeyOf(m.id)
    case None => r
    case Some(k) =>
      if k !in r.players then r
      else
        var p := r.players[k];
        r.(players := r.players[k := p.(controls := ControlsOf(m))])
  }

  /** The "status" event as it arrives. A payload without an `id` property names no plane and changes nothing.
      A null or missing payload makes the handler throw; nothing catches the error inside the socket.io
      callback, so the server process ends, which is None. */
  function OnStatus(r: Round, p: StatusPayload): (r': Option<Round>)
    ensures r'.None? <==> Throws(p)
    ensures p.Bare? && r'.Some? ==> r'.value == r
    ensures p.Message? ==> r' == Some(ApplyStatus(r, p.m))
  {
    match p
    case Message(m) => Some(ApplyStatus(r, m))
    case Bare(v) => if v.JsNull? || v.JsUndefined? then None else Some(r)
  }

  /** What `update_location` needs of a plane in the map: its cell and the cells of its records exist, and it
      has two records to evict. */
  ghost predicate Movable(r: Round, id: nat) {
    id in r.players ==>
      WellFormed(r.grid) && r.players[id].cell in r.grid && |r.players[id].data| >= 2
      && CellsIn(r.players[id].data, r.grid)
  }

  /** `update_location` on plane `id` (one the map holds): a plane not deployed is left alone; otherwise it
      moves, its trail is updated, and if it is near the obstacle and a guide is inside it, the plane is
      destroyed with reason "crash" and queued for respawn. Also returns the moved player object, which the
      caller goes on to use. None where the new records' centre lies outside the grid and `get_cell` fails. */
  function UpdateLocation(r: Round, id: nat, t: TickInput): (r': Option<(Round, Player)>)
    requires id in r.players && Movable(r, id)
    ensures !r.players[id].deployed ==> r' == Some((r, r.players[id]))
    ensures r.players[id].deployed ==> (r'.Some? <==> Advance(r.grid, r.players[id], t).Some?)
    ensures r'.Some? && r.players[id].deployed ==> r'.value.1 == Advance(r.grid, r.players[id], t).value.1
  {
    var p := r.players[id];
    if !p.deployed then Some((r, p))
    else
      match Advance(r.grid, p, t)
      case None => None
      case Some((g, q)) =>
        AdvanceFiled(r.grid, p, t);
        Some((Settle(r, id, g, q), q))
  }

  /** A tick of a deployed plane is `Advance` followed by `Settle`. */
  lemma UpdateLocationSettles(r: Round, id: nat, t: TickInput)
    requires id in r.players && Movable(r, id) && r.players[id].deployed
    requires Advance(r.grid, r.players[id], t).Some?
    ensures var (g, q) := Advance(r.grid, r.players[id], t).value;
      q.cell in g && CellsIn(q.data, g) && UpdateLocation(r, id, t) == Some((Settle(r, id, g, q), q))
  {
    AdvanceFiled(r.grid, r.players[id], t);
  }

  /** The end of `update_location` once the plane has moved to `q` and the grid has become `g`: the plane is
      destroyed with reason "crash" and queued for respawn if it is near the obstacle with a guide inside it.
      Every other plane, the id counter and the clock are left alone. */
  function Settle(r: Round, id: nat, g: Grid, q: Player): (r': Round)
    requires id in r.players && q.cell in g && CellsIn(q.data, g)
    ensures id in r'.players <==> !Crashed(q.pos, GuidePositions(q))
    ensures !Crashed(q.pos, GuidePositions(q)) ==> r'.players[id] == q && r'.grid == g && r'.log == r.log
    ensures !Crashed(q.pos, GuidePositions(q)) ==> r'.pending == r.pending
    ensures r'.slot == r.slot
    ensures Crashed(q.pos, GuidePositions(q)) ==> r' == Destroy(Moved(r, id, g, q), id, "crash", true)
    ensures r'.curId == r.curId && r'.inProgress == r.inProgress && r'.secondsLeft == r.secondsLeft
    ensures r'.players.Keys <= r.players.Keys
    ensures forall k :: k in r.players && k != id ==> k in r'.players && r'.players[k] == r.players[k]
  {
    var r1 := Moved(r, id, g, q);
    if Crashed(q.pos, GuidePositions(q)) then Destroy(r1, id, "crash", true) else r1
  }

  /** The round with plane `id` replaced by its moved self and the grid by the updated one. */
  function Moved(r: Round, id: nat, g: Grid, q: Player): (r': Round)
    requires id in r.players && q.cell in g && CellsIn(q.data, g)
    ensures Placed(r', id) && id in r'.players && r'.players[id] == q && r'.grid == g
    ensures r'.players.Keys == r.players.Keys
    ensures forall k :: k in r.players && k != id ==> r'.players[k] == r.players[k]
    ensures r'.curId == r.curId && r'.inProgress == r.inProgress && r'.log == r.log && r'.pending == r.pending
    ensures r'.slot == r.slot
  {
    r.(grid := g, players := r.players[id := q])
  }

  /** The edges of `p` that cross the record's triangle: `getEdges().some(edge => intersects(record, edge))`. */
  predicate HitsPlane(s: Surface, p: Player) {
    exists i :: 0 <= i < 4 && Intersects(s, Edges(p)[i])
  }

  /** The records `check_collisions` would stop at: records of another plane, filed in the plane's cell or a
      neighbouring one, that one of the plane's edges crosses. */
  function Hits(g: Grid, p: Player): (r: set<Datum>)
    requires p.cell in g
    ensures forall d :: d in r <==>
      (d.Record? && d.owner != p.planeId && HitsPlane(d.surface, p)
       && exists c :: c in Neighbors(p.cell) && c in g && d in g[c].trails)
  {
    set c, d | c in Neighbors(p.cell) && c in g && d in g[c].trails && d.Record? && d.owner != p.planeId
      && HitsPlane(d.surface, p) :: d
  }

  /** The record `check_collisions` stops at. The source takes the first in the iteration order of the
      neighbour set and of each cell's record set; the model lets it be any of them. */
  predicate ValidHit(g: Grid, p: Player, hit: Option<Datum>)
    requires p.cell in g
  {
    (hit.None? <==> Hits(g, p) == {}) && (hit.Some? ==> hit.value in Hits(g, p))
  }

  /** `check_collisions` for plane object `p`: with no hit nothing happens; otherwise the record's owner scores
      a point, a "score" event goes out, and `p`'s plane is destroyed with reason "collision" and queued for
      respawn. None where the owner is not in the map and `players.get(...).score++` throws. */
  function CheckCollisions(r: Round, p: Player, hit: Option<Datum>): (r': Option<Round>)
    requires p.cell in r.grid && ValidHit(r.grid, p, hit) && Placed(r, p.planeId)
    ensures hit.None? ==> r' == Some(r)
    ensures hit.Some? ==> (r'.Some? <==> hit.value.owner in r.players)
    ensures r'.Some? && hit.Some? ==> var o := hit.value.owner;
      && o != p.planeId && o in r'.value.players && r'.value.players[o].score == r.players[o].score + 1
      && p.planeId !in r'.value.players
      && r'.value.players.Keys == r.players.Keys - {p.planeId}
    ensures r'.Some? && hit.Some? ==> var o := hit.value.owner;
      r'.value.log == r.log + [Scored(o)] + (if p.planeId in r.players then [Destroyed(p.planeId, "collision")] else [])
    ensures r'.Some? && hit.Some? ==> var o := hit.value.owner;
      && r'.value.players[o] == r.players[o].(score := r.players[o].score + 1)
      && (forall k :: k in r.players && k != o && k != p.planeId ==> r'.value.players[k] == r.players[k])
    ensures r'.Some? && hit.Some? ==> SameShape(r.grid, r'.value.grid)
    ensures r'.Some? && hit.Some? && p.planeId in r.players ==> var q := r.players[p.planeId];
      && (forall c :: c in r.grid ==> r'.value.grid[c].trails == r.grid[c].trails - FiledUnder(q.data, c))
      && (forall c :: c in r.grid ==> r'.value.grid[c].planes == r.grid[c].planes - Just(q.cell, c, p.planeId))
      && r'.value.pending == r.pending + [q.(deployed := false)]
    ensures r'.Some? && hit.Some? && p.planeId !in r.players ==> r'.value.grid == r.grid && r'.value.pending == r.pending
    ensures r'.Some? ==> var v := r'.value;
      v.curId == r.curId && v.inProgress == r.inProgress && v.secondsLeft == r.secondsLeft && v.slot == r.slot
  {
    match hit
    case None => Some(r)
    case Some(d) =>
      if d.owner !in r.players then None
      else Some(Destroy(AwardPoint(r, d.owner), p.planeId, "collision", true))
  }

  /** `players.get(id).score++` and the "score" event. */
  function AwardPoint(r: Round, id: nat): (r': Round)
    requires id in r.players
    ensures r'.players.Keys == r.players.Keys && r'.players[id].score == r.players[id].score + 1
    ensures r'.players[id] == r.players[id].(score := r.players[id].score + 1)
    ensures forall k :: k in r.players && k != id ==> r'.players[k] == r.players[k]
    ensures r'.grid == r.grid && r'.log == r.log + [Scored(id)] && r'.pending == r.pending
    ensures r'.curId == r.curId && r'.inProgress == r.inProgress && r'.secondsLeft == r.secondsLeft && r'.slot == r.slot
  {
    var q := r.players[id];
    r.(players := r.players[id := q.(score := q.score + 1)], log := r.log + [Scored(id)])
  }

  /** The ids of `ids` below `hi` from `lo` upwards, in increasing order. */
  function Roster(ids: set<nat>, lo: nat, hi: nat): (r: seq<nat>)
    ensures Lists(r, ids, lo, hi)
    decreases hi - lo
  {
    if lo >= hi then []
    else
      var rest := Roster(ids, lo + 1, hi);
      if lo !in ids then rest
      else
        RosterCons(ids, lo, hi, rest);
        [lo] + rest
  }

  /** `r` lists the members of `ids` in [lo, hi), each once, in increasing order. */
  predicate Lists(r: seq<nat>, ids: set<nat>, lo: nat, hi: nat) {
    && (forall i :: 0 <= i < |r| ==> r[i] in ids && lo <= r[i] < hi)
    && (forall k :: k in ids && lo <= k < hi ==> k in r)
    && (forall i, j :: 0 <= i < j < |r| ==> r[i] < r[j])
  }

  lemma RosterCons(ids: set<nat>, lo: nat, hi: nat, rest: seq<nat>)
    requires lo in ids && lo < hi && Lists(rest, ids, lo + 1, hi)
    ensures Lists([lo] + rest, ids, lo, hi)
  {
    var r := [lo] + rest;
    assert forall i :: 1 <= i < |r| ==> r[i] == rest[i - 1];
    forall k | k in ids && lo <= k < hi ensures k in r {
      if k != lo {
        var m :| 0 <= m < |rest| && rest[m] == k;
        assert r[m + 1] == k;
      }
    }
  }

  /** `Array.from(players.values())` mapped to names and scores: the map iterates in insertion order, which
      is increasing id order because every id is inserted once, fresh from the counter. */
  function Results(r: Round): (s: seq<Standing>)
    ensures |s| == |Roster(r.players.Keys, 0, r.curId)|
    ensures forall i :: 0 <= i < |s| ==>
      var k := Roster(r.players.Keys, 0, r.curId)[i]; s[i] == Standing(r.players[k].name, r.players[k].score)
  {
    var ids := Roster(r.players.Keys, 0, r.curId);
    seq(|ids|, i requires 0 <= i < |ids| => Standing(r.players[ids[i]].name, r.players[ids[i]].score))
  }

  /** `count_down`, run every second while a round is in progress: broadcast the seconds left and count one
      down, or at zero end the round and broadcast the standings. */
  function CountDown(r: Round): (r': Round)
    requires r.inProgress
    ensures r.secondsLeft > 0 ==> r'.inProgress && r'.secondsLeft == r.secondsLeft - 1 && r'.log == r.log + [Time(r.secondsLeft)]
    ensures r.secondsLeft == 0 ==> !r'.inProgress && r'.log == r.log + [Result(Results(r))]
    ensures r.secondsLeft == 0 ==> r'.secondsLeft == 0
    ensures r'.players == r.players && r'.grid == r.grid && r'.curId == r.curId && r'.pending == r.pending
    ensures r'.slot == r.slot
  {
    if r.secondsLeft == 0 then r.(inProgress := false, log := r.log + [Result(Results(r))])
    else r.(secondsLeft := r.secondsLeft - 1, log := r.log + [Time(r.secondsLeft)])
  }

  /** `k` firings of the round timer. */
  function Clock(r: Round, k: nat): (r': Round)
    requires k > 0 ==> r.inProgress && k <= r.secondsLeft + 1
    ensures r'.players == r.players && r'.grid == r.grid && r'.curId == r.curId
    decreases k
  {
    if k == 0 then r else Clock(CountDown(r), k - 1)
  }

  /** The broadcasts of a countdown from `s`: "time" events s, s - 1, ..., 1. */
  function Times(s: nat): (e: seq<Event>)
    ensures |e| == s && forall i :: 0 <= i < s ==> e[i] == Time(s - i)
  {
    if s == 0 then [] else [Time(s)] + Times(s - 1)
  }

  /** A round that is left alone runs out after secondsLeft + 1 timer firings, having broadcast the seconds
      left from secondsLeft down to 1 and then the standings once, and is then over. */
  lemma {:induction false} ClockRunsOut(r: Round)
    requires r.inProgress
    ensures !Clock(r, r.secondsLeft + 1).inProgress
    ensures Clock(r, r.secondsLeft + 1).log == r.log + Times(r.secondsLeft) + [Result(Results(r))]
    decreases r.secondsLeft
  {
    if r.secondsLeft > 0 {
      var r1 := CountDown(r);
      ClockRunsOut(r1);
      assert Results(r1) == Results(r);
      assert r.log + Times(r.secondsLeft) == r1.log + Times(r1.secondsLeft);
    }
  }

  /** The "disconnect" handler, for the plane of the disconnecting client: destroyed with no respawn. */
  function Disconnect(r: Round, id: nat): (r': Round)
    requires Placed(r, id)
    ensures id !in r.players ==> r' == r
    ensures id !in r'.players && r'.pending == r.pending && r'.slot == r.slot
    ensures id in r.players ==> r'.log == r.log + [Destroyed(id, "disconnection")]
    ensures forall k :: k in r.players && k != id ==> k in r'.players && r'.players[k] == r.players[k]
    ensures SameShape(r.grid, r'.grid)
    ensures id in r.players ==> forall c :: c in r.grid ==>
      r'.grid[c].trails == r.grid[c].trails - FiledUnder(r.players[id].data, c)
    ensures id in r.players ==> forall c :: c in r.grid ==>
      r'.grid[c].planes == r.grid[c].planes - Just(r.players[id].cell, c, id)
    ensures r'.curId == r.curId && r'.inProgress == r.inProgress && r'.secondsLeft == r.secondsLeft
  {
    Destroy(r, id, "disconnection", false)
  }

  /** `destroy_player(socket, ...)` as written: the id is read back from `socket_to_plane_id[socket]`, which
      is the one entry the last deploy wrote, whichever client `socket` belongs to. */
  function DestroyBySocket(r: Round, reason: string, redeploy: bool): (r': Round)
    requires r.slot.Some? ==> Placed(r, r.slot.value)
    ensures r.slot.None? ==> r' == r
    ensures r.slot.Some? ==> r' == Destroy(r, r.slot.value, reason, redeploy)
  {
    match r.slot
    case None => r
    case Some(id) => Destroy(r, id, reason, redeploy)
  }
}
