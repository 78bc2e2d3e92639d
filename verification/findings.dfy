/** `socket_to_plane_id[socket]` in js/server.js: a Map indexed with brackets as if it were an object, so every
    socket is converted to the one property name "[object Object]". The last deploy's id is the only entry, and
    `destroy_player(socket, ...)` destroys that plane whichever client it is called for. */
module SocketKeys {
  import opened Wrappers
  import opened Vectors
  import opened JsValues
  import opened Cells
  import opened Planes
  import opened Game
  import opened RoundInvariant

  /** After "start" the entry names the plane just created. */
  lemma StartSlot(r: Round, req: JsValue, s: Spawn)
    requires WellFormed(r.grid) && OnSpawnSphere(s.at)
    ensures Start(r, req, s).slot == Some(Opened(r).curId)
  {
  }

  /** As written, `destroy_player(socket, ...)` removes the most recently deployed plane and keeps every other
      plane of the map, whichever client's socket it is given. */
  lemma SocketDestroysLastDeployed(r: Round, i: nat, reason: string, redeploy: bool)
    requires Consistent(r) && r.slot.Some? && i in r.players && i != r.slot.value
    ensures Placed(r, r.slot.value)
    ensures r.slot.value !in DestroyBySocket(r, reason, redeploy).players
    ensures i in DestroyBySocket(r, reason, redeploy).players
  {
    DestroyBySocketConsistent(r, reason, redeploy);
  }

  /** A first client starts a round on a server where none is running, as on a freshly loaded one (`Boot`
      is consistent and not in progress). */
  lemma OneClient(r0: Round, s: Spawn)
    requires Consistent(r0) && !r0.inProgress && OnSpawnSphere(s.at)
    ensures var r := Start(r0, JsString("ann"), s);
      Consistent(r) && r.inProgress && r.players.Keys == {1} && r.curId == 2
  {
    StartConsistent(r0, JsString("ann"), s);
    StartFresh(r0, JsString("ann"), s);
  }

  /** A second client joins that round. */
  lemma TwoClients(r0: Round, s: Spawn)
    requires Consistent(r0) && !r0.inProgress && OnSpawnSphere(s.at)
    ensures var r := Start(Start(r0, JsString("ann"), s), JsString("bob"), s);
      Consistent(r) && r.players.Keys == {1, 2} && r.slot == Some(2)
  {
    var r1 := Start(r0, JsString("ann"), s);
    OneClient(r0, s);
    StartConsistent(r1, JsString("bob"), s);
    StartJoin(r1, JsString("bob"), s);
    StartSlot(r1, JsString("bob"), s);
  }

  /** Two clients are in a round, the second deployed last (`TwoClients` reaches such a round), and the first
      one's connection closes. As written, the "disconnect" handler removes plane 2, which belongs to the
      client still connected, and leaves plane 1 of the client that left; the corrected handler, keyed by the
      disconnecting client's plane id, removes plane 1 and keeps plane 2. */
  lemma DisconnectRemovesWrongPlane(r: Round)
    requires Consistent(r) && r.players.Keys == {1, 2} && r.slot == Some(2)
    ensures Placed(r, 1) && Placed(r, 2)
    ensures DestroyBySocket(r, "disconnection", false).players.Keys == {1}
    ensures Disconnect(r, 1).players.Keys == {2}
  {
    ConsistentPlaced(r, 1);
    ConsistentPlaced(r, 2);
    LeaverKept(r);
    LeaverRemoved(r);
  }

  /** In a round holding planes 1 and 2, plane 2 deployed last, plane 1's client leaving: as written, plane 1
      stays. */
  lemma LeaverKept(r: Round)
    requires Placed(r, 2) && r.players.Keys == {1, 2} && r.slot == Some(2)
    ensures DestroyBySocket(r, "disconnection", false).players.Keys == {1}
  {
    assert DestroyBySocket(r, "disconnection", false).players.Keys == {1, 2} - {2};
  }

  /** The same round with the handler keyed by the leaving client's plane id: plane 2 stays. */
  lemma LeaverRemoved(r: Round)
    requires Placed(r, 1) && r.players.Keys == {1, 2}
    ensures Disconnect(r, 1).players.Keys == {2}
  {
    assert Disconnect(r, 1).players.Keys == {1, 2} - {1};
  }

  /** The corrected `destroy_player`, keyed by the plane id of the client it is called for, removes that
      client's plane, purges every record of it from every cell and its id from every cell's plane set, and
      keeps every other plane. */
  lemma DestroyPurges(r: Round, id: nat, reason: string, redeploy: bool)
    requires Consistent(r)
    ensures Placed(r, id)
    ensures var r' := Destroy(r, id, reason, redeploy);
      && id !in r'.players
      && (forall k :: k in r.players && k != id ==> k in r'.players && r'.players[k] == r.players[k])
      && (forall c, d :: c in r'.grid && d in r'.grid[c].trails ==> d.owner != id)
      && (forall c :: c in r'.grid ==> id !in r'.grid[c].planes)
  {
    DestroyConsistent(r, id, reason, redeploy);
  }
}
