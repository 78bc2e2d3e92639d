# Contrails server core, in Dafny

This project models the authoritative server of the Contrails multiplayer arena game and proves properties of the model.
Planes fly inside a cube-shaped arena around a spherical obstacle. Each plane leaves a ribbon-shaped trail, and a plane
that flies through another plane's trail is destroyed while the trail's owner scores.

Two revisions of the server are modelled.

- `js/server.js`, the round-based server. It covers:
  - display-name sanitising and de-duplication;
  - the out-of-bounds wraparound `alter_bounds`;
  - the spatial grid of `initialize_cells`, `get_neighbors` and `get_cell`;
  - the trail and collision-record ring buffers with their cell bookkeeping (`deploy_player`, `update_trail`,
    `get_collision_data`, `destroy_player`);
  - the gas and speed governor, and the obstacle crash test of `update_location`;
  - the segment-versus-triangle hit test `intersects` and `check_collisions`;
  - the "start", "status" and "disconnect" handlers, respawn, and the round countdown `count_down`.
- `server.js`, the earlier single-file server. It covers:
  - the `Player` constructor and `update_trail`, whose collision buffer only grows to a cap;
  - the unit-square `intersects` and the triple loop of `check_collisions`;
  - the destroy queue and its clearing `clear_destroyed_players`;
  - the connection, "status" and "disconnect" handlers and `update_world`.

Positions are Dafny `real`s. What the three.js library computes is an input to each step: the moved position, the
guides' world positions and the inverse matrices. State is immutable, and every handler is a function from the old
state to the new one. The "add", "destroy", "score", "time" and "result" broadcasts of `Game` go to an
append-only log; the per-tick "update" broadcast is not logged (see Left out).

Modules, in dependency order:

- `Wrappers` (Option);
- `Vectors` (Vector3 and Matrix3 over reals);
- `Config` (the constants of `js/server.js`);
- `Bounds` (`alter_bounds`);
- `Blocks` and `SpatialGrid` (cell indices, `get_cell`, neighbour sets);
- `Collision` (records and both hit tests);
- `Cells` (the contents of the grid);
- `JsValues` (message fields and the coercions applied to them);
- `Names` (display names);
- `Flight` (speed, gas and crash test);
- `Planes` (one plane of `js/server.js`);
- `Game` (the round);
- `RoundInvariant` (the invariant every handler keeps);
- `SocketKeys` (the `socket_to_plane_id` finding);
- `LegacyPlanes` and `LegacyServer` (`server.js`).

The invariant of a round (`RoundInvariant.Consistent`) keeps the cells and the player map in lockstep, in both
directions. Every record filed in a cell belongs to the buffer of a plane in the map. Every record in such a buffer
is filed under its cell, and no record occurs twice in a buffer. Every plane id filed in a cell is the id of a
plane in the map whose cell that is.

Two properties of the code are easy to mistake:

- Gas has an upper cap but no floor at 0. One fast tick from gas 1 reaches -2 (js/server.js:177-194), as
  `Flight.GasGoesNegative` shows.
- A guide exactly on the obstacle's sphere is not a crash: the test is a strict `<` (js/server.js:451).

## Model

| member | source | states |
|---|---|---|
| Bounds.WrapAxis | js/server.js:399-410 | A coordinate below `buffer` becomes `2*outer_radius - buffer - epsilon`. One above `2*outer_radius - buffer` becomes `buffer + epsilon`. Any other coordinate is kept. The result always lies in `[buffer, 2*outer_radius - buffer]`. |
| Bounds.GuideAxis | js/server.js:402-409 | On a wrapped axis, the wing guide is put on the face the plane re-enters through, one epsilon from the plane's new coordinate. On an unwrapped axis, the guide keeps its value. |
| Bounds.AlterBounds | js/server.js:395-416 | The new position lies in the box. The out-of-bounds flag is set exactly when the old position was outside it. A position inside the box changes nothing. Axis by axis, the position takes `WrapAxis` of its coordinate. Each guide takes `GuideAxis`: it is pinned to the re-entry face on a wrapped axis and kept on an axis that did not wrap. On each changed axis, both wing guides sit epsilon from the plane. |
| Bounds.WrapIdempotent | js/server.js:395-416 | Wrapping twice equals wrapping once, and a wrapped position never raises the out-of-bounds flag. |
| SpatialGrid.NValue | js/server.js:24 | The number of cells per side, `2 * ceil(outer_radius / cell_dim)`, is 8. |
| SpatialGrid.AxisIndexUnique | js/server.js:389-391 | `floor(t / cell_dim)` is the only index whose slab `[a*cell_dim, (a+1)*cell_dim)` contains `t`. |
| SpatialGrid.CellOf | js/server.js:387-393 | `get_cell` returns the in-range cell whose cube contains the point. It fails (None) exactly when no cube of the grid contains the point. |
| SpatialGrid.CubeHasCell | js/server.js:387-393 | Every point of the arena cube `[0, 2*outer_radius)^3` has a cell. |
| SpatialGrid.WrappedHasCell | js/server.js:185-191 | Every position `alter_bounds` leaves behind has a cell, so the `get_cell` of `update_location` never leaves the grid. |
| SpatialGrid.Neighbors | js/server.js:348-361 | A cell's neighbour set holds exactly the in-range cells whose indices differ from its own by at most one on each axis. |
| SpatialGrid.NeighborsReflexive | js/server.js:348-361 | Every cell is its own neighbour. |
| SpatialGrid.NeighborsSymmetric | js/server.js:348-361 | `d` is a neighbour of `c` exactly when `c` is a neighbour of `d`. |
| SpatialGrid.NeighborsSize | js/server.js:348-361 | Every neighbour set has between 8 members (a corner cell) and 27 (an interior cell). |
| SpatialGrid.AllCellsSpec | js/server.js:365-374 | The nested loops of `initialize_cells` build exactly the in-range indices. |
| Collision.Param | js/server.js:318 | The line parameter `c` computed by `intersects` gives a point of the record's plane. |
| Collision.ParamInUnit | js/server.js:318-321 | `c` lies in `[0, 1]` exactly when the edge's two ends lie on opposite closed sides of the record's plane. |
| Collision.Local | js/server.js:311-325 | The local point is computed exactly when the edge is not parallel to the plane and its ends straddle it. |
| Collision.Intersects | js/server.js:311-330 | A hit needs a non-parallel edge whose ends straddle the plane. A record with a zero normal, as a degenerate segment produces, is never hit. |
| Collision.IntersectsMeansTriangle | js/server.js:306-330 | For a record whose matrix inverts the frame of its spanning vectors, `intersects` is true exactly when a non-parallel edge meets the closed triangle those vectors span. |
| Collision.LocalSound | js/server.js:322-325 | The local point has z = 0, and its x and y are the coordinates of the crossing point along the two spanning vectors. |
| Collision.LocalComplete | js/server.js:322-325 | Conversely, a crossing point with coordinates (a, b) along the spanning vectors has local point (a, b, 0). |
| Collision.FrameNormal | js/server.js:275-284 | A record whose matrix really is the inverse of its frame has a non-zero normal. |
| Collision.NormalScaleInvariant | js/server.js:276 | Scaling the normal by any non-zero factor, as `normalize` does, does not change the hit result. |
| Collision.MakeSurface | js/server.js:272-289 | The record's vertex is `p1`, and its normal is orthogonal to both spanning vectors `p2 - p1` and `p3 - p1`. |
| Collision.ExampleHit | js/server.js:311-330 | With vertex at the origin, identity inverse and normal (0, 0, 1), the edge (0.25, 0.25, -1) to (0.25, 0.25, 1) hits. |
| Collision.ExampleWide | js/server.js:311-330 | The same record is missed by the edge (2, 2, -1) to (2, 2, 1). |
| Collision.ExampleShort | js/server.js:311-330 | The same record is missed by the edge (0.25, 0.25, -1) to (0.25, 0.25, -0.5), which stops short of the plane. |
| Collision.TriangleMiss | js/server.js:326 | The edge through (0.75, 0.75) misses the unit triangle, because 0.75 + 0.75 > 1. |
| Collision.IntersectsSquare | server.js:204-228 | The older test also needs a non-parallel edge whose ends straddle the plane, and never hits a zero normal. |
| Collision.IntersectsSquareMeansParallelogram | server.js:199-228 | For a well-formed record, the older test is true exactly when a non-parallel edge meets the closed parallelogram the spanning vectors span. |
| Collision.TriangleWithinSquare | server.js:224 | Every hit of the triangle test is a hit of the square test. |
| Collision.SquareOnlyHit | server.js:224 | The edge through (0.75, 0.75) hits the unit square, while `Collision.TriangleMiss` shows it misses the unit triangle. |
| Cells.InitializeCells | js/server.js:363-374 | There is a cell for exactly the in-range indices, and every cell starts with no planes and no records. |
| Cells.AddTrail | js/server.js:263 | Filing a record adds it to its own cell's record set and changes nothing else. |
| Cells.RemoveTrail | js/server.js:258 | Deleting a record removes it from its own cell's record set and changes nothing else. Padding was never added, so deleting it is a no-op. |
| Cells.AddPlane | js/server.js:159 | Only the named cell's plane set gains the id. |
| Cells.RemovePlane | js/server.js:122 | Only the named cell's plane set loses the id. |
| Cells.MovePlane | js/server.js:190-192 | The id leaves the old cell's plane set and is in the new cell's set. Record sets and other cells are unchanged. |
| Cells.PurgeAll | js/server.js:119-121 | Every cell loses exactly the buffer entries filed under it. No plane set changes. |
| JsValues.NumberOr0 | js/server.js:225 | A number is kept; any other value becomes 0. |
| JsValues.BoolOrFalse | js/server.js:227 | The result is true exactly when the field is the boolean `true`. |
| JsValues.StringOrNone | js/server.js:228 | A string is kept; any other value becomes "None". |
| JsValues.KeyOf | js/server.js:223 | `players.has(status.id)` can match only a non-negative integral number. A string such as "3" never matches. |
| JsValues.KeyOfNumber | js/server.js:223 | Every plane id, sent back as a number, finds its plane. |
| Names.Truncate | js/server.js:53 | `substring(0, 16)` keeps a prefix of at most 16 characters, and keeps a short string whole. |
| Names.BaseName | js/server.js:52-57 | An allow-listed string of at most 16 characters is kept, and a longer one becomes exactly its first 16 characters. A non-string, an empty string or a string with a forbidden character becomes "guest". |
| Names.BaseNameIdempotent | js/server.js:52-57 | Asking again for the name one was given yields the same name. |
| Names.ParseDec | js/server.js:61-62 | Reading back the numeral appended as suffix gives the suffix number. |
| Names.DecInjective | js/server.js:61-62 | Different suffix numbers are written differently. |
| Names.SuffixInjective | js/server.js:61-62 | Different suffixes give different names. |
| Names.SuffixedSize | js/server.js:60-61 | The names base1 through base(k-1) are k-1 different names. |
| Names.TakenBound | js/server.js:60-61 | If base1 through base(k-1) are all taken, at least k-1 names are taken, so the suffix loop ends. |
| Names.SearchFrom | js/server.js:60-61 | The suffix loop returns a free suffix at or above its start, and every smaller suffix is taken. |
| Names.FreeSuffix | js/server.js:60-62 | The suffix chosen is the smallest positive k for which base + k is free. |
| Names.UniqueName | js/server.js:58-63 | The final name is free. A free base is kept verbatim; a taken base gets the smallest free suffix. |
| Names.NewName | js/server.js:52-63 | A new player's name differs from every name in the map, and is the sanitised request when that is free. |
| Names.LongSuffixedName | js/server.js:53-62 | The suffix can push a name past 16 characters: a second "abcdefghijklmnop" becomes 17 characters long. |
| Flight.Speed | js/server.js:177 | Fast speed is used exactly when the mouse is held and gas is positive. |
| Flight.NextGas | js/server.js:193-194 | Gas goes down by 3 at fast speed and up by 2 at normal speed, then `Math.min` caps it at `initial_gas`: the result is the changed gas when that is below the cap, and the cap otherwise. It never decreases at normal speed. |
| Flight.Run | js/server.js:193-194 | Over any sequence of ticks, gas stays in `[gas_deplete + 1, initial_gas]` = `[-2, 300]`. |
| Flight.RunAppend | js/server.js:193-194 | Running two sequences of ticks one after the other is running their concatenation. |
| Flight.FastRun | js/server.js:177-194 | Holding the mouse for k ticks costs 3k gas while the tank lasts. |
| Flight.GasGoesNegative | js/server.js:177-194 | A full tank emptied to 0, refilled to 4, and then held for two ticks ends at -2: there is no floor at 0. |
| Flight.BroadPhaseSound | js/server.js:196-197 | A guide within `side_length` of the plane's centre and strictly inside the obstacle puts the centre within `radius_buffer_squared`. The cheap distance test therefore never hides a crash. |
| Flight.CrashedExactly | js/server.js:196-200 | For guides within the plane's extent, the crash test is exactly "some guide is strictly inside the obstacle". |
| Planes.NewPlayer | js/server.js:48-69 | A new player object has its name, score 0, `seq` 1, mouse at rest, roll "None", and is not yet deployed. |
| Planes.SpawnInBox | js/server.js:144-152 | Every spawn point at distance `outer_radius - buffer` from the centre lies inside the wraparound box. |
| Planes.Deploy | js/server.js:135-166 | Deploy gives the plane:<br>- its id, a full tank, the spawn point and that point's cell;<br>- a trail of `trail_length` copies of the starting wing-tips;<br>- `2*(trail_length-1)` padding entries naming its cell.<br>Only its cell gains the id. Name, score and tick counter are kept. |
| Planes.Centre | js/server.js:290-292 | The point `p1 + v1/2 + v2/2` a record is filed under is the midpoint of `p2` and `p3`. |
| Planes.MakeRecord | js/server.js:272-301 | `get_collision_data` makes a record with the given owner, filed under the cell of its centre. It fails exactly when that centre is outside the grid. |
| Planes.NewRecords | js/server.js:262-267 | `update_trail` makes two distinct records of the plane, stamped with its tick count and filed under the same cell, the cell of `(L + R.prev)/2`. The first is the surface of triangle (L.prev, L, R.prev) and the second that of (R, L, R.prev). |
| Planes.Refile | js/server.js:258-267 | The two evicted entries leave their cells and the two new records join theirs. Nothing else changes. |
| Planes.UpdateTrail | js/server.js:256-270 | The collision buffer keeps its length, drops its two oldest entries and ends with the two new records. The trail keeps its length, drops its oldest entry and ends with the current wing-tips. No other field changes. |
| Planes.Shift | js/server.js:268-269 | Push then shift keeps the length, moves every element one place to the front and puts the new one last. |
| Planes.Edges | js/server.js:75-83 | `getEdges` returns four segments. Each runs from the current position of one guide to the previous position of its partner: left to right, right to left, top to bottom, bottom to top. |
| Planes.Steer | js/server.js:176-194 | Before the trail update, `update_location`:<br>- counts the tick;<br>- wraps the position;<br>- shifts every guide's coordinates, so the left and right guides' old coordinates are the ones `alter_bounds` overwrote;<br>- files the plane under the cell of its new position;<br>- applies the gas rule.<br>The buffers, name, score and id are untouched. |
| Planes.Advance | js/server.js:172-195 | One tick of a deployed plane keeps the collision buffer's length and drops its two oldest entries. The plane moves from its old cell's plane set to its new one. It fails only where `get_cell` of the new records fails. |
| Planes.AdvanceFiled | js/server.js:190-195 | After a tick, the plane's cell and every cell its buffer names exist. |
| Planes.AdvanceRefiles | js/server.js:256-267 | After a tick, the buffer is the old buffer minus its first two entries, plus the two new records. The cells lose exactly the former and gain exactly the latter. |
| Planes.UpdateTrailFiled | js/server.js:262-267 | Both new records are filed under cells of the grid. |
| Game.Boot | js/server.js:34-40 | The loaded server has no round, no players, ids from 1, 30 seconds on the clock and a grid of empty cells. |
| Game.NamesOf | js/server.js:58 | The set of taken names is exactly the names of the players in the map. |
| Game.DeployInto | js/server.js:135-139 | The plane takes `cur_id` and is stored under it, and `cur_id` advances. The socket slot holds that id, and an "add" goes out. |
| Game.Opened | js/server.js:206-214 | With no round running, "start" opens one with an empty map, empty cells, ids from 1 and a full clock. A running round is left alone. |
| Game.Start | js/server.js:205-221 | After "start" a round is running and the new player is stored under the next id. The map is otherwise unchanged. The respawn queue is kept, the log gains exactly the new plane's "add", and the socket slot names the new plane. |
| Game.StartNamesDistinct | js/server.js:58-63 | The new player's name differs from the name of every other player in the map. The player has no points and a deployed plane. |
| Game.StartFresh | js/server.js:206-219 | "start" with no round running yields a round holding only plane 1, with a full clock. |
| Game.StartJoin | js/server.js:216-219 | Joining a running round adds the next id and keeps the clock and every other player. |
| Game.Respawn | js/server.js:124-127 | The respawn timer redeploys the oldest destroyed player under a fresh id, keeping its name and score. It is deployed exactly as `deploy_player` deploys, the log gains its "add", and every other player is kept. With nothing pending, nothing changes. |
| Game.Destroy | js/server.js:111-133 | Destroying a plane:<br>- removes it from the map and from its cell's plane set;<br>- purges exactly its buffer's entries from their cells;<br>- logs a "destroy";<br>- queues it for respawn only when asked.<br>An id not in the map changes nothing, and the other players are kept. |
| Game.ControlsOf | js/server.js:225-228 | Each control field takes the message's value when the type is right, and 0, false or "None" otherwise. |
| Game.OnStatus | js/server.js:222-233 | The server ends exactly when the payload is null or missing, because `status.id` throws. A payload without an `id` changes nothing, and an object payload is applied as a status message. |
| Game.ApplyStatus | js/server.js:222-233 | Only the controls of the plane the message names change: the grid, log, ids, clock, respawn queue and socket slot are kept. A message naming no plane in the map changes nothing. |
| Game.UpdateLocation | js/server.js:172-201 | An undeployed plane is left alone. A deployed plane moves as `Planes.Advance` says, and the moved plane object is handed back. |
| Game.UpdateLocationSettles | js/server.js:172-201 | A deployed plane's tick is the move followed by the crash check. |
| Game.Settle | js/server.js:196-200 | The plane stays in the map exactly when the crash test fails. A crashed plane is destroyed with reason "crash" and queued for respawn. Other planes, the ids, the clock and the socket slot are kept. A plane that does not crash leaves the log and the respawn queue as they were. |
| Game.Hits | js/server.js:332-335 | The candidate records are exactly the other planes' records, filed in the plane's cell or a neighbouring cell, that one of its four edges crosses. |
| Game.CheckCollisions | js/server.js:332-344 | With no hit nothing changes. On a hit:<br>- the record's owner gets one more point and is otherwise unchanged;<br>- a "score" goes out, then a "destroy" if the plane is still in the map;<br>- the plane leaves the map, its records leave their cells, its id leaves its cell, and it joins the respawn queue;<br>- every other player, the id counter, the clock and the socket slot are kept.<br>It fails only when the owner is not in the map. |
| Game.AwardPoint | js/server.js:337-338 | The owner's score rises by one and a "score" goes out. The other players, the grid, the respawn queue, the ids, the clock and the socket slot are kept. |
| Game.Roster | js/server.js:423 | The ids of the map in a range, each once, in increasing order. |
| Game.Results | js/server.js:423 | The standings list every player's name and score in map order. |
| Game.CountDown | js/server.js:418-430 | A positive clock broadcasts the seconds left and counts down by one. At zero the round ends, the clock stays at zero, and the standings go out. The players, grid, ids, respawn queue and socket slot are kept. |
| Game.ClockRunsOut | js/server.js:418-430 | A round left alone broadcasts "time" with `seconds_left, ..., 1`, then exactly one result, and is then over; the clock never goes negative. |
| Game.Disconnect | js/server.js:234 | The leaving client's plane is destroyed with reason "disconnection" and is not queued for respawn. Every other plane is kept. Each cell loses exactly the plane's records and its id; the id counter, the clock, the respawn queue and the socket slot are kept. For a plane no longer in the map, which is waiting to respawn, nothing changes. |
| RoundInvariant.SoundRelabel | js/server.js:224-228 | Changing a plane's name, score or controls keeps the invariant. |
| RoundInvariant.SoundDeploy | js/server.js:135-166 | A freshly deployed plane under the next id keeps the invariant. |
| RoundInvariant.SoundDestroy | js/server.js:119-123 | Removing a plane, its records and its cell entry keeps the invariant. |
| RoundInvariant.SoundMove | js/server.js:186-195 | A tick that moves the plane between cells and replaces its two oldest records keeps the invariant. |
| RoundInvariant.BootConsistent | js/server.js:34-40 | The loaded server satisfies the invariant. |
| RoundInvariant.OpenedConsistent | js/server.js:206-214 | Opening a round keeps the invariant. |
| RoundInvariant.StatusConsistent | js/server.js:222-233 | The "status" handler keeps the invariant. |
| RoundInvariant.OnStatusConsistent | js/server.js:222-233 | A "status" event the server survives keeps the invariant. |
| RoundInvariant.ConsistentPlaced | js/server.js:119-122 | Every plane of a consistent round has the cells `destroy_player` and `update_location` look up. |
| RoundInvariant.DeployIntoConsistent | js/server.js:135-166 | `deploy_player` keeps the invariant. |
| RoundInvariant.StartConsistent | js/server.js:205-221 | "start" keeps the invariant, whether it opens a round or joins one. |
| RoundInvariant.RespawnConsistent | js/server.js:126 | A respawn keeps the invariant. |
| RoundInvariant.DestroyConsistent | js/server.js:111-133 | `destroy_player` keeps the invariant. |
| RoundInvariant.DisconnectConsistent | js/server.js:234 | "disconnect" keeps the invariant. |
| RoundInvariant.DestroyBySocketConsistent | js/server.js:111-133 | Destroying through the socket slot keeps the invariant too. |
| RoundInvariant.CountDownConsistent | js/server.js:418-430 | `count_down` keeps the invariant. |
| RoundInvariant.AwardPointConsistent | js/server.js:337 | Scoring keeps the invariant. |
| RoundInvariant.AdvanceStep | js/server.js:186-195 | A tick of a plane of a consistent round is a move step with the two records `update_trail` makes. |
| RoundInvariant.UpdateLocationConsistent | js/server.js:172-201 | `update_location` keeps the invariant, whether the plane survives or crashes. |
| RoundInvariant.SettleConsistent | js/server.js:196-200 | The crash check keeps the invariant. |
| RoundInvariant.MoveBuffersFiled | js/server.js:256-269 | After a tick, every record in a live plane's buffer is still filed in its cell: the two evicted entries are the only ones unfiled, and the new records are filed. |
| RoundInvariant.HitsAreLiveRecords | js/server.js:332-336 | In a consistent round, `check_collisions` can stop at exactly the records of other live planes' buffers that lie in a neighbouring cell and are crossed by an edge. |
| RoundInvariant.HitOwnerLive | js/server.js:335-337 | In a consistent round every record a plane can hit belongs to another plane in the map, so `players.get(...).score++` finds it. |
| RoundInvariant.CheckCollisionsConsistent | js/server.js:332-344 | In a consistent round `check_collisions` always completes and keeps the invariant. |
| RoundInvariant.UpdateLocationCell | js/server.js:190-192 | The moved plane's cell exists in the grid the tick leaves. |
| RoundInvariant.TurnConsistent | js/server.js:99-107 | One plane's turn of `update_world`, `update_location` then `check_collisions` on the returned object, completes and keeps the invariant. The returned plane's cell is derived, not assumed; the only assumption is that `update_location` did not fail. |
| SocketKeys.StartSlot | js/server.js:138 | After "start", the socket slot holds the id of the plane just created. |
| SocketKeys.SocketDestroysLastDeployed | js/server.js:111-114 | As written, `destroy_player(socket, ...)` removes the last deployed plane and keeps every other plane, whichever client's socket it gets. |
| SocketKeys.OneClient | js/server.js:205-221 | A first client's "start" on a server with no round running, a freshly loaded one for instance, opens a consistent round holding plane 1 only. |
| SocketKeys.TwoClients | js/server.js:205-221 | A second client's "start" then adds plane 2. The round holds planes 1 and 2, and the slot names plane 2. |
| SocketKeys.DisconnectRemovesWrongPlane | js/server.js:234 | In any consistent round with planes 1 and 2, plane 2 deployed last (the round `TwoClients` reaches), the first client leaves. The handler as written removes plane 2, which belongs to the client still connected. The corrected handler removes plane 1. |
| SocketKeys.LeaverKept | js/server.js:111-123 | As written, with planes 1 and 2 and plane 2 deployed last, plane 1 stays whoever leaves. |
| SocketKeys.LeaverRemoved | js/server.js:111-123 | Keyed by the leaving client's plane id, plane 1 is removed and plane 2 stays. |
| SocketKeys.DestroyPurges | js/server.js:111-123 | The corrected destroy leaves no record of the plane in any cell and no copy of its id in any plane set, and keeps every other plane. |
| LegacyPlanes.NewPlayer | server.js:30-58 | A new player has a trail of `TRAIL_LENGTH` copies of its starting guide positions, no records, a full tank and the mouse at rest. |
| LegacyPlanes.Speed | server.js:84 | Speed is `FAST_SPEED` exactly when `click` is truthy, else `NORMAL_SPEED`. |
| LegacyPlanes.SweptRecord | server.js:161-187 | The record's vertex is the old left guide, and its normal is orthogonal to `new_right - new_left` and to `new_right - old_right`. |
| LegacyPlanes.SweptCorners | server.js:163-176 | When the guides move by a translation, the record's parallelogram has the old and new guide positions as corners. |
| LegacyPlanes.SweptHit | server.js:165-187 | With a regular matrix inverted, the square test is true exactly when the segment meets the swept parallelogram. |
| LegacyPlanes.UpdateTrail | server.js:160-194 | The trail keeps its length, shifts by one and ends with the new guide positions. The new record goes last. The oldest record is evicted only when the buffer already holds `TRAIL_LENGTH - 1`. |
| LegacyPlanes.UpdateLocation | server.js:83-90 | Gas drops by exactly the speed, with no clamp. The guides move, the buffers keep their shape, and the mouse fields and id are kept. |
| LegacyPlanes.FlyTrail | server.js:192-193 | After any number of ticks, the trail holds the last `TRAIL_LENGTH` guide positions, counting the initial ones: a FIFO buffer. |
| LegacyPlanes.FlyRecords | server.js:188-191 | The record buffer grows by one per tick until it holds `TRAIL_LENGTH - 1`, and never exceeds that. |
| LegacyPlanes.FlyGas | server.js:84-88 | With the button unchanged, every one of k ticks costs the same speed, summed tick by tick. |
| LegacyPlanes.BurnedProduct | server.js:84-88 | That tick-by-tick sum is k times the speed. |
| LegacyPlanes.GasGoesNegative | server.js:84-88 | A new plane cruising for 2001 ticks has gas -0.5: nothing stops it at 0. |
| LegacyServer.Boot | server.js:5-14 | The server starts with no players and a valid state. |
| LegacyServer.Connect | server.js:132-140 | The new plane takes `cur_id`, `cur_id` advances, and the other players are kept. |
| LegacyServer.ConnectFresh | server.js:132-140 | The id a connection gets belongs to no plane and was never destroyed, and it exceeds every id in the map, so ids are distinct and increasing. |
| LegacyServer.ConnectValid | server.js:139-140 | A connection keeps the state valid, including the increasing map order. |
| LegacyServer.Without | server.js:77 | Deleting a key keeps every other key in order and keeps an increasing order increasing. |
| LegacyServer.Remove | server.js:76-77 | The plane leaves the map and its id is broadcast as destroyed. |
| LegacyServer.RemoveValid | server.js:75-77 | Removing a plane keeps the state valid. |
| LegacyServer.Disconnect | server.js:133-138 | The connection's own plane leaves the map and is broadcast once, unless it has already gone. The other players are kept. |
| LegacyServer.DisconnectValid | server.js:133-138 | "disconnect" keeps the state valid. |
| LegacyServer.OnStatus | server.js:122-131 | The server ends exactly when the payload is null or missing, because `status.id` throws. A payload without an `id` changes nothing, and an object payload is applied as a status message. |
| LegacyServer.Status | server.js:122-131 | A known id overwrites only that plane's `x_frac`, `y_frac` and `click`, uncoerced. An unknown id changes nothing. |
| LegacyServer.StatusValid | server.js:122-131 | "status" keeps the state valid. |
| LegacyServer.StatusIdempotent | server.js:122-131 | Applying a status message twice has the effect of applying it once. |
| LegacyServer.ClearDestroyed | server.js:73-81 | Afterwards, exactly the queued planes are gone from the map, and survivors are unchanged. Exactly the queued ids that were present are broadcast. |
| LegacyServer.ClearDestroyedValid | server.js:73-81 | Clearing keeps the state valid and broadcasts each id at most once, however often the queue names it. |
| LegacyServer.QueuedTwiceDestroyedOnce | server.js:74-80 | A plane queued twice is broadcast once. |
| LegacyServer.FirstCollider | server.js:233-242 | The innermost loop stops at the first plane, other than the setter, that crosses the record. If it finds none, no such plane exists. |
| LegacyServer.SetterHits | server.js:232-244 | Every hit for one setter is genuine: another plane really crosses that record. Each record queues at most one plane, in record order. |
| LegacyServer.SetterHitsComplete | server.js:232-244 | A record of the setter queues a plane exactly when some other plane crosses it. |
| LegacyServer.HitsOver | server.js:231-245 | Every hit of the outer loop is genuine and belongs to a visited setter. |
| LegacyServer.HitsOverOrdered | server.js:231-245 | Visiting setters in increasing order lists the hits in loop order, so no record queues two planes. |
| LegacyServer.HitsOverComplete | server.js:230-246 | A record of a visited setter queues a plane exactly when some other plane crosses it. |
| LegacyServer.CheckCollisions | server.js:230-246 | No plane is queued against its own trail, and each record queues at most one collider. A record queues a collider exactly when some other plane crosses it. The collider is the first crossing plane in map order (the `break`). |
| LegacyServer.Visit | server.js:61-65 | One pass of the world loop keeps the state valid. The planes that stay are exactly those no record queued after the move, each as the move left it, the visited one included. Every plane that leaves is broadcast as destroyed. |
| LegacyServer.Stepped | server.js:62 | `update_location` on the visited plane changes that plane only and keeps the state valid. |
| LegacyServer.LaterCrosserSkipped | server.js:233-242 | When two planes cross the same record, the one later in map order is never queued for it. |
| LegacyServer.VisitSurvivors | server.js:62-65 | A plane whose guide segment crosses no other plane's record after the move survives the pass. |
| LegacyServer.UpdateWorld | server.js:60-67 | The `update_world` loop over ids the caller lists, skipping ids removed by then. It keeps the state valid and only removes planes. Exactly the planes it removes are added to the broadcast destroy ids. |
| LegacyServer.Tick | server.js:60-69 | One timer firing visits the planes of the map in insertion order. It keeps the state valid and only removes planes. Exactly the planes it removes are broadcast as destroyed. |
| LegacyServer.LoneSurvives | server.js:60-65 | A plane alone in the map is visited by the tick: it moves and survives. |

## Left out

- Sockets, HTTP and static serving are left out. The broadcasts of `Game` are modelled as an append-only event log,
  except the per-tick `io.emit("update", ...)` of `update_world` (js/server.js:103): it carries a plane's position
  to the clients and changes no server state, so it is not logged. Nor are the messages sent only to one client:
  "id" to the deployed player (js/server.js:169), and "config", the per-player "add" and "scores" to a joining
  client (js/server.js:215-220). In `LegacyServer`, only the ids of "destroy" broadcasts are kept; its "update",
  "add" and "id" messages (server.js:93, 112-120) and their payloads are not modelled.
- three.js transforms (`rotateX/Y/Z`, `translateY`, `lookAt`, `updateMatrixWorld`, `getWorldPosition`) are library
  code in floating point. The positions they produce are inputs: `Planes.TickInput`, `Game.Spawn` and
  `LegacyPlanes.Motion`. The turn rates and roll handling of js/server.js:178-183 only feed those inputs.
- `Math.random` spawn sampling is an input. `Game.Spawn` only requires a point at distance `outer_radius - buffer`
  from the centre. The older server's random start is left to the caller of `LegacyServer.Connect`.
- `Matrix3.getInverse` and `Vector3.normalize` are left to the caller. The inverse is an input matrix, and the model
  keeps the unnormalised cross product as normal; `Collision.NormalScaleInvariant` shows that this changes no hit.
  When getInverse throws, the source keeps the un-inverted matrix. The model covers this because the matrix input
  is arbitrary.
- Timers (`setInterval`, `setTimeout`) are not modelled. Their callbacks are the functions `Game.CountDown`,
  `Game.Respawn` and `LegacyServer.Tick`, and the order in which they fire is the caller's choice.
- `get_scores`, `get_configuration_data`, `get_data`, `send_location` and `draw_plane` only build messages or scene
  objects. They are not modelled.
- Object identity and aliasing are not modelled. Records are told apart by owner, tick stamp and half. Values are
  immutable, so the in-place writes of `alter_bounds` (js/server.js:402-409) do not reach the trail entry and record
  vertex that share the guide's coordinate object in the source.
- Mutation of a JavaScript Map during `for ... of` is modelled only in `LegacyServer.UpdateWorld`: it visits the ids
  its caller lists and skips removed ones. `LegacyServer.Tick` lists the planes present at the start, in map order. In js/server.js a plane destroyed in its own turn is no longer
  visited; `RoundInvariant.TurnConsistent` covers one turn, not a whole `update_world`.
- NaN, infinities and rounding of JavaScript numbers are not modelled. Positions are exact reals, and
  `JsValues.Truthy` treats every non-zero number as true.
- js/client.js and test.js are the browser client and a rendering sandbox, and are not part of this model.
- The name guarantee is checked against the players in the map at creation time. A player waiting for respawn is
  not in the map, so a newcomer can take its name and both names then coexist. The model allows this, as the source
  does.
- The neighbour set each cell stores in the source is never changed after `initialize_cells`. The model computes it
  with `SpatialGrid.Neighbors` where `check_collisions` reads it.
- In js/server.js, `check_collisions` still runs on a plane that crashed in the same tick. The model reproduces
  this, since `Game.CheckCollisions` takes the plane object `update_location` hands back, but proves nothing specific
  about it.
- Game.CheckCollisions: takes the record it stops at as a parameter, constrained by `Game.ValidHit` to be one of
  the crossing records. The source takes the first in the iteration order of JavaScript Sets, which is not modelled.
- Game.Disconnect: is keyed by the leaving client's plane id, as in the corrected model of `destroy_player`. Crash
  and collision also call `destroy_player(player.socket, ...)` in the source, which as written also hits the last
  deployed plane. `Game.Settle` and `Game.CheckCollisions` use the corrected per-id `Game.Destroy`; see Findings.
- RoundInvariant.TurnConsistent: requires that `update_location` did not fail, that is, that the new records' centre
  has a cell. Where it has none, `get_cell` throws in the source; nothing catches the TypeError in the timer
  callback, so the Node process ends. The model returns None there and does not follow the process further.
- LegacyServer.Status: copies the raw message values. The rotations they later drive are part of the
  `LegacyPlanes.Motion` input.
- LegacyServer.CheckCollisions: is stated for the `IntersectsSquare` test. The loops below it take any hit test
  `LegacyServer.HitTest` as a parameter, so that their proofs do not depend on the geometry.

## Findings

| source | as written | input that shows it | evidently intended | confidence | as-written member | corrected member |
|---|---|---|---|---|---|---|
| js/server.js:112, 138 | `socket_to_plane_id[socket]` indexes a Map with brackets. Every socket converts to the property name "[object Object]", so the last deploy's id is the only entry, and `destroy_player(socket, ...)` always acts on the most recently deployed plane. | Two clients send "start", getting planes 1 and 2, and then the first client disconnects. Plane 2, whose client is still connected, is destroyed, and plane 1 stays. | Each socket maps to its own plane's id, so the disconnecting, crashing or colliding client's plane is destroyed. | high (not executed) | SocketKeys.DisconnectRemovesWrongPlane | SocketKeys.DestroyPurges |
