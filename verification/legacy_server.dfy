/** The connection, status, collision and destruction logic of server.js: every plane tests its guide segment
    against every record of every other plane, hit planes are queued, and the queue is cleared into "destroy"
    broadcasts. */
module LegacyServer {
  import opened Wrappers
  import opened Vectors
  import opened JsValues
  import opened Collision
  import opened LegacyPlanes
  import Game

  /** The server's state: the `players` map, its insertion order (the order `players.values()` visits),
      `cur_id`, and the ids of every "destroy" broadcast so far. */
  datatype Server = Server(players: map<nat, Player>, order: seq<nat>, curId: nat, destroyed: seq<nat>)

  /** Strictly increasing, hence without repeats. */
  predicate Increasing(xs: seq<nat>) {
    forall i, j :: 0 <= i < j < |xs| ==> xs[i] < xs[j]
  }

  predicate Distinct(xs: seq<nat>) {
    forall i, j :: 0 <= i < j < |xs| ==> xs[i] != xs[j]
  }

  /** The insertion order lists exactly the map's keys. */
  predicate OrderIn(s: Server) {
    (forall i :: 0 <= i < |s.order| ==> s.order[i] in s.players) && (forall k :: k in s.players ==> k in s.order)
  }

  /** What the handlers keep true: each plane is stored under its own id, which is below `cur_id`; the map
      visits planes in increasing id order; each id was broadcast as destroyed at most once, and only after
      it left the map for good. */
  predicate Valid(s: Server) {
    && (forall k :: k in s.players ==> s.players[k].id == k && k < s.curId && Shaped(s.players[k]))
    && OrderIn(s) && Increasing(s.order)
    && Distinct(s.destroyed)
    && (forall i :: 0 <= i < |s.destroyed| ==> s.destroyed[i] !in s.players && s.destroyed[i] < s.curId)
  }

  /** The server as it starts: no players, ids from 0. */
  function Boot(): (s: Server)
    ensures Valid(s) && s.players == map[]
  {
    Server(map[], [], 0, [])
  }

  /** The "connection" handler: the new plane takes `cur_id` as its id, is appended to the map, and `cur_id`
      advances. `left` and `right` are the random starting positions of its guides. */
  function Connect(s: Server, left: Vec3, right: Vec3): (s': Server)
    ensures s'.curId == s.curId + 1 && s'.destroyed == s.destroyed
    ensures s'.players.Keys == s.players.Keys + {s.curId}
    ensures s'.players[s.curId] == NewPlayer(s.curId, left, right)
    ensures forall k :: k in s.players && k != s.curId ==> s'.players[k] == s.players[k]
  {
    Server(s.players[s.curId := NewPlayer(s.curId, left, right)], s.order + [s.curId], s.curId + 1, s.destroyed)
  }

  /** `xs` with `x` taken out, as `players.delete` takes a key out of the insertion order. */
  function Without(xs: seq<nat>, x: nat): (r: seq<nat>)
    ensures forall y :: y in r <==> y in xs && y != x
    ensures Increasing(xs) ==> Increasing(r)
    decreases |xs|
  {
    if |xs| == 0 then []
    else
      var rest := Without(xs[1..], x);
      if xs[0] == x then rest
      else
        assert Increasing(xs) ==> forall j :: 0 <= j < |rest| ==> xs[0] < rest[j] by {
          if Increasing(xs) {
            forall j | 0 <= j < |rest| ensures xs[0] < rest[j] {
              assert rest[j] in rest;
              assert rest[j] in xs[1..];
            }
          }
        }
        [xs[0]] + rest
  }

  /** `io.emit("destroy", id); players.delete(id)` */
  function Remove(s: Server, id: nat): (s': Server)
    requires id in s.players
    ensures s'.players == s.players - {id} && s'.curId == s.curId && s'.destroyed == s.destroyed + [id]
  {
    Server(s.players - {id}, Without(s.order, id), s.curId, s.destroyed + [id])
  }

  /** The "disconnect" handler: the plane the connection created is removed and broadcast, unless it has
      already gone. */
  function Disconnect(s: Server, localId: nat): (s': Server)
    ensures localId !in s'.players && s'.curId == s.curId
    ensures forall k :: k in s'.players <==> k in s.players && k != localId
    ensures forall k :: k in s'.players ==> s'.players[k] == s.players[k]
    ensures s'.destroyed == if localId in s.players then s.destroyed + [localId] else s.destroyed
  {
    if localId in s.players then Remove(s, localId) else s
  }

  /** The "status" handler: a message whose id is a key of the map overwrites that plane's three mouse fields
      with the values it carries, whatever their types; any other message changes nothing. */
  function Status(s: Server, m: Game.Status): (s': Server)
    ensures s'.players.Keys == s.players.Keys && s'.order == s.order && s'.curId == s.curId
    ensures s'.destroyed == s.destroyed
    ensures KeyOf(m.id).None? || KeyOf(m.id).value !in s.players ==> s' == s
    ensures forall k :: k in s.players && KeyOf(m.id) != Some(k) ==> s'.players[k] == s.players[k]
    ensures forall k :: k in s.players && KeyOf(m.id) == Some(k) ==>
      s'.players[k] == s.players[k].(xFrac := m.xFrac, yFrac := m.yFrac, click := m.click)
  {
    match KeyOf(m.id)
    case None => s
    case Some(k) =>
      if k !in s.players then s
      else s.(players := s.players[k := s.players[k].(xFrac := m.xFrac, yFrac := m.yFrac, click := m.click)])
  }

  /** The "status" event as it arrives: a payload without an `id` property changes nothing, and a null or
      missing payload makes reading `status.id` throw, which ends the server process (None). */
  function OnStatus(s: Server, p: Game.StatusPayload): (s': Option<Server>)
    ensures s'.None? <==> Game.Throws(p)
    ensures p.Bare? && s'.Some? ==> s'.value == s
    ensures p.Message? ==> s' == Some(Status(s, p.m))
  {
    match p
    case Message(m) => Some(Status(s, m))
    case Bare(v) => if v.JsNull? || v.JsUndefined? then None else Some(s)
  }

  /** `clear_destroyed_players`: each queued plane still in the map is broadcast and removed, in queue order;
      the queue is then emptied. */
  function ClearDestroyed(s: Server, queue: seq<nat>): (r: (Server, seq<nat>))
    ensures forall k :: k in r.0.players <==> k in s.players && k !in queue
    ensures forall k :: k in r.0.players ==> r.0.players[k] == s.players[k]
    ensures forall k :: k in r.1 <==> k in s.players && k in queue
    ensures r.0.destroyed == s.destroyed + r.1 && r.0.curId == s.curId
    decreases |queue|
  {
    if |queue| == 0 then (s, [])
    else if queue[0] in s.players then
      var (s', emitted) := ClearDestroyed(Remove(s, queue[0]), queue[1..]);
      (s', [queue[0]] + emitted)
    else
      ClearDestroyed(s, queue[1..])
  }

  /** Clearing keeps the state valid, so in particular no id is broadcast twice, however often the queue
      names it. */
  lemma {:induction false} ClearDestroyedValid(s: Server, queue: seq<nat>)
    requires Valid(s)
    ensures Valid(ClearDestroyed(s, queue).0)
    ensures Distinct(ClearDestroyed(s, queue).1)
    decreases |queue|
  {
    if |queue| > 0 {
      if queue[0] in s.players {
        RemoveValid(s, queue[0]);
        ClearDestroyedValid(Remove(s, queue[0]), queue[1..]);
        var emitted := ClearDestroyed(Remove(s, queue[0]), queue[1..]).1;
        assert queue[0] !in emitted;
        assert ClearDestroyed(s, queue).1 == [queue[0]] + emitted;
      } else {
        ClearDestroyedValid(s, queue[1..]);
      }
    }
  }

  /** A plane queued twice is broadcast once. */
  lemma QueuedTwiceDestroyedOnce(s: Server, k: nat)
    requires k in s.players
    ensures ClearDestroyed(s, [k, k]).1 == [k]
  {
    assert [k, k][1..] == [k];
    assert ClearDestroyed(Remove(s, k), [k]).1 == [];
  }

  lemma RemoveValid(s: Server, id: nat)
    requires Valid(s) && id in s.players
    ensures Valid(Remove(s, id))
  {
    var s' := Remove(s, id);
    forall i | 0 <= i < |s'.destroyed| ensures s'.destroyed[i] !in s'.players && s'.destroyed[i] < s'.curId {
      if i < |s.destroyed| {
        assert s'.destroyed[i] == s.destroyed[i];
      }
    }
    forall i, j | 0 <= i < j < |s'.destroyed| ensures s'.destroyed[i] != s'.destroyed[j] {
      if j == |s.destroyed| {
        assert s'.destroyed[i] == s.destroyed[i] && s.destroyed[i] !in s.players;
      }
    }
    forall i | 0 <= i < |s'.order| ensures s'.order[i] in s'.players {
      assert s'.order[i] in s'.order;
    }
  }

  lemma ConnectValid(s: Server, left: Vec3, right: Vec3)
    requires Valid(s)
    ensures Valid(Connect(s, left, right))
  {
    var s' := Connect(s, left, right);
    forall i, j | 0 <= i < j < |s'.order| ensures s'.order[i] < s'.order[j] {
      if j == |s.order| {
        assert s'.order[i] == s.order[i] && s.order[i] in s.players;
      }
    }
  }

  /** Connections get distinct ids, in increasing order: the id the next connection gets belongs to no plane
      in the map and was never broadcast as destroyed, and exceeds every id handed out before it. */
  lemma ConnectFresh(s: Server, left: Vec3, right: Vec3)
    requires Valid(s)
    ensures s.curId !in s.players && s.curId !in s.destroyed
    ensures forall k :: k in Connect(s, left, right).players && k != s.curId ==> k < s.curId
    ensures Connect(s, left, right).curId > s.curId
  {
  }

  lemma DisconnectValid(s: Server, localId: nat)
    requires Valid(s)
    ensures Valid(Disconnect(s, localId))
  {
    if localId in s.players {
      RemoveValid(s, localId);
    }
  }

  lemma StatusValid(s: Server, m: Game.Status)
    requires Valid(s)
    ensures Valid(Status(s, m))
  {
  }

  /** A status message applied twice has the effect of applying it once. */
  lemma StatusIdempotent(s: Server, m: Game.Status)
    ensures Status(Status(s, m), m) == Status(s, m)
  {
  }

  /** A queued hit: `collider`'s guide segment crosses record `record` of `setter`'s buffer. */
  datatype Hit = Hit(setter: nat, record: nat, collider: nat)

  /** The segment between a plane's two guides, the one `check_collisions` tests. */
  function Wing(p: Player): Edge {
    Edge(p.left, p.right)
  }

  /** A hit test on a record and a guide segment: `intersects` of server.js is `IntersectsSquare`. The loops
      below are stated for any test, so that their proofs do not look inside the geometry. */
  type HitTest = (Surface, Edge) -> bool

  /** The hit really occurred, between two different planes of the map. */
  predicate Genuine(s: Server, test: HitTest, h: Hit) {
    && h.setter in s.players && h.collider in s.players && h.collider != h.setter
    && h.record < |s.players[h.setter].records|
    && test(s.players[h.setter].records[h.record], Wing(s.players[h.collider]))
  }

  /** Some plane other than the setter crosses the setter's record `k`. */
  ghost predicate Crossed(s: Server, test: HitTest, setter: nat, k: nat)
    requires setter in s.players && k < |s.players[setter].records|
  {
    exists c :: c in s.players && c != setter && test(s.players[setter].records[k], Wing(s.players[c]))
  }

  /** The innermost loop of `check_collisions`: the first plane of `cs`, other than the setter, that crosses
      `rec`; the `break` stops the search there. */
  function FirstCollider(s: Server, test: HitTest, setter: nat, rec: Surface, cs: seq<nat>): (r: Option<nat>)
    requires forall i :: 0 <= i < |cs| ==> cs[i] in s.players
    ensures r.Some? ==> r.value in cs && r.value != setter && test(rec, Wing(s.players[r.value]))
    ensures r.None? ==> NoneCross(s, test, setter, rec, cs)
    ensures r.Some? ==> exists n :: 0 <= n < |cs| && cs[n] == r.value && NoneCross(s, test, setter, rec, cs[..n])
    decreases |cs|
  {
    if |cs| == 0 then None
    else if cs[0] != setter && test(rec, Wing(s.players[cs[0]])) then Some(cs[0])
    else
      var r := FirstCollider(s, test, setter, rec, cs[1..]);
      assert r.Some? ==> exists n :: 0 <= n < |cs| && cs[n] == r.value && NoneCross(s, test, setter, rec, cs[..n]) by {
        if r.Some? {
          var n :| 0 <= n < |cs[1..]| && cs[1..][n] == r.value && NoneCross(s, test, setter, rec, cs[1..][..n]);
          assert cs[..n + 1] == [cs[0]] + cs[1..][..n];
          assert cs[n + 1] == r.value;
        }
      }
      r
  }

  /** No plane of `cs` other than the setter crosses `rec`. */
  predicate NoneCross(s: Server, test: HitTest, setter: nat, rec: Surface, cs: seq<nat>)
    requires forall i :: 0 <= i < |cs| ==> cs[i] in s.players
  {
    forall i :: 0 <= i < |cs| && cs[i] != setter ==> !test(rec, Wing(s.players[cs[i]]))
  }

  /** No plane before `h.collider` in map order, other than the setter, crosses the hit record: because of the
      `break`, a record queues the first crossing plane and no later one. */
  ghost predicate FirstInOrder(s: Server, test: HitTest, h: Hit)
    requires OrderIn(s) && h.setter in s.players && h.record < |s.players[h.setter].records|
  {
    exists n :: 0 <= n < |s.order| && s.order[n] == h.collider
      && NoneCross(s, test, h.setter, s.players[h.setter].records[h.record], s.order[..n])
  }

  /** The middle loop for one setter, from its record `k` on: each record queues at most one plane. */
  function SetterHits(s: Server, test: HitTest, setter: nat, k: nat): (r: seq<Hit>)
    requires OrderIn(s) && setter in s.players && k <= |s.players[setter].records|
    ensures forall i :: 0 <= i < |r| ==> Genuine(s, test, r[i]) && r[i].setter == setter && k <= r[i].record
    ensures forall i :: 0 <= i < |r| ==> Genuine(s, test, r[i]) && FirstInOrder(s, test, r[i])
    ensures forall i, j :: 0 <= i < j < |r| ==> r[i].record < r[j].record
    decreases |s.players[setter].records| - k
  {
    var recs := s.players[setter].records;
    if k == |recs| then []
    else
      var rest := SetterHits(s, test, setter, k + 1);
      var first := FirstCollider(s, test, setter, recs[k], s.order);
      if first.None? then rest
      else
        var h := Hit(setter, k, first.value);
        assert FirstInOrder(s, test, h);
        [h] + rest
  }

  /** Record `j` of the setter, from `k` on, queues a plane exactly when some other plane crosses it. */
  lemma {:induction false} SetterHitsComplete(s: Server, test: HitTest, setter: nat, k: nat, j: nat)
    requires OrderIn(s) && setter in s.players && k <= j < |s.players[setter].records|
    ensures Queues(SetterHits(s, test, setter, k), setter, j) <==> Crossed(s, test, setter, j)
    decreases j - k
  {
    var recs := s.players[setter].records;
    var rest := SetterHits(s, test, setter, k + 1);
    var first := FirstCollider(s, test, setter, recs[k], s.order);
    var pre := if first.None? then [] else [Hit(setter, k, first.value)];
    assert SetterHits(s, test, setter, k) == pre + rest;
    ConcatHas(pre, rest, setter, j);
    if j > k {
      SetterHitsComplete(s, test, setter, k + 1, j);
    } else if first.Some? {
      assert pre[0].setter == setter && pre[0].record == k;
      assert test(recs[k], Wing(s.players[first.value]));
    } else {
      forall c | c in s.players && c != setter ensures !test(recs[k], Wing(s.players[c])) {
        var i :| 0 <= i < |s.order| && s.order[i] == c;
      }
    }
  }

  /** The outer loop over the setters of `setters`. */
  function HitsOver(s: Server, test: HitTest, setters: seq<nat>): (r: seq<Hit>)
    requires OrderIn(s) && forall i :: 0 <= i < |setters| ==> setters[i] in s.players
    ensures forall i :: 0 <= i < |r| ==> Genuine(s, test, r[i]) && r[i].setter in setters
    ensures forall i :: 0 <= i < |r| ==> Genuine(s, test, r[i]) && FirstInOrder(s, test, r[i])
    decreases |setters|
  {
    if |setters| == 0 then []
    else
      var here := SetterHits(s, test, setters[0], 0);
      var rest := HitsOver(s, test, setters[1..]);
      var r := here + rest;
      assert forall i :: 0 <= i < |r| ==>
        (Genuine(s, test, r[i]) && r[i].setter in setters && FirstInOrder(s, test, r[i])) by {
        forall i | 0 <= i < |r|
          ensures Genuine(s, test, r[i]) && r[i].setter in setters && FirstInOrder(s, test, r[i])
        {
          if i >= |here| {
            assert r[i] == rest[i - |here|] && rest[i - |here|].setter in setters[1..];
          } else {
            assert r[i] == here[i];
          }
        }
      }
      r
  }

  /** Visiting the setters in increasing order finds the hits in the loops' order, so no record of any
      setter queues two planes. */
  lemma {:induction false} HitsOverOrdered(s: Server, test: HitTest, setters: seq<nat>)
    requires OrderIn(s) && forall i :: 0 <= i < |setters| ==> setters[i] in s.players
    requires Increasing(setters)
    ensures InLoopOrder(HitsOver(s, test, setters))
    decreases |setters|
  {
    if |setters| > 0 {
      var here := SetterHits(s, test, setters[0], 0);
      var rest := HitsOver(s, test, setters[1..]);
      assert HitsOver(s, test, setters) == here + rest;
      assert Increasing(setters[1..]);
      HitsOverOrdered(s, test, setters[1..]);
      forall i | 0 <= i < |rest| ensures setters[0] < rest[i].setter {
        var m :| 0 <= m < |setters[1..]| && setters[1..][m] == rest[i].setter;
        assert setters[0] < setters[m + 1];
      }
      ConcatOrdered(here, rest, setters[0]);
    }
  }

  /** The hits of one setter followed by the hits of later setters are in the loops' order. */
  lemma ConcatOrdered(here: seq<Hit>, rest: seq<Hit>, x: nat)
    requires forall i :: 0 <= i < |here| ==> here[i].setter == x
    requires forall i, j :: 0 <= i < j < |here| ==> here[i].record < here[j].record
    requires forall i :: 0 <= i < |rest| ==> x < rest[i].setter
    requires InLoopOrder(rest)
    ensures InLoopOrder(here + rest)
  {
    var r := here + rest;
    forall i, j | 0 <= i < j < |r| ensures Before(r[i], r[j]) {
      if j < |here| {
        assert r[i] == here[i] && r[j] == here[j];
      } else if i < |here| {
        assert r[i] == here[i] && r[j] == rest[j - |here|];
      } else {
        assert r[i] == rest[i - |here|] && r[j] == rest[j - |here|];
      }
    }
  }

  /** A hit for record `j` of `x` is in a concatenation exactly when it is in one of the parts. */
  lemma ConcatHas(here: seq<Hit>, rest: seq<Hit>, x: nat, j: nat)
    ensures Queues(here + rest, x, j) <==> Queues(here, x, j) || Queues(rest, x, j)
  {
    var r := here + rest;
    if Queues(here, x, j) {
      var i :| 0 <= i < |here| && here[i].setter == x && here[i].record == j;
      assert r[i] == here[i];
    }
    if Queues(r, x, j) {
      var i :| 0 <= i < |r| && r[i].setter == x && r[i].record == j;
      if i >= |here| {
        assert rest[i - |here|] == r[i];
      }
    }
    if Queues(rest, x, j) {
      var i :| 0 <= i < |rest| && rest[i].setter == x && rest[i].record == j;
      assert r[|here| + i] == rest[i];
    }
  }

  /** A record of a visited setter queues a plane exactly when some other plane crosses it. */
  lemma {:induction false} HitsOverComplete(s: Server, test: HitTest, setters: seq<nat>, x: nat, j: nat)
    requires OrderIn(s) && forall i :: 0 <= i < |setters| ==> setters[i] in s.players
    requires x in setters && j < |s.players[x].records|
    ensures Queues(HitsOver(s, test, setters), x, j) <==> Crossed(s, test, x, j)
    decreases |setters|
  {
    var here := SetterHits(s, test, setters[0], 0);
    var rest := HitsOver(s, test, setters[1..]);
    assert HitsOver(s, test, setters) == here + rest;
    ConcatHas(here, rest, x, j);
    if x == setters[0] {
      SetterHitsComplete(s, test, x, 0, j);
    } else {
      assert forall i :: 0 <= i < |here| ==> here[i].setter != x;
    }
    if x in setters[1..] {
      HitsOverComplete(s, test, setters[1..], x, j);
    } else {
      assert forall i :: 0 <= i < |rest| ==> rest[i].setter != x;
    }
  }

  /** Some hit of `hs` is for record `j` of setter `x`. */
  predicate Queues(hs: seq<Hit>, x: nat, j: nat) {
    exists i :: 0 <= i < |hs| && hs[i].setter == x && hs[i].record == j
  }

  /** The hits are listed in the loops' order. */
  predicate InLoopOrder(hs: seq<Hit>) {
    forall i, j :: 0 <= i < j < |hs| ==> Before(hs[i], hs[j])
  }

  /** `h` comes before `h'` in the loops' order: an earlier setter, or the same setter and an earlier record. */
  predicate Before(h: Hit, h': Hit) {
    h.setter < h'.setter || (h.setter == h'.setter && h.record < h'.record)
  }

  /** `check_collisions`: the hits found by visiting the setters in map order. No plane is queued against its
      own trail, every record queues at most one plane, and a record queues a plane exactly when some other
      plane crosses it. */
  function CheckCollisions(s: Server): (r: seq<Hit>)
    requires Valid(s)
    ensures forall i :: 0 <= i < |r| ==> Genuine(s, IntersectsSquare, r[i])
    ensures forall i, j :: 0 <= i < j < |r| ==> (r[i].setter, r[i].record) != (r[j].setter, r[j].record)
    ensures forall x, j :: x in s.players && 0 <= j && j < |s.players[x].records| ==>
      (Queues(r, x, j) <==> Crossed(s, IntersectsSquare, x, j))
    ensures forall i :: 0 <= i < |r| ==> Genuine(s, IntersectsSquare, r[i]) && FirstInOrder(s, IntersectsSquare, r[i])
  {
    var r := HitsOver(s, IntersectsSquare, s.order);
    HitsOverOrdered(s, IntersectsSquare, s.order);
    forall x, j | x in s.players && 0 <= j < |s.players[x].records|
      ensures Queues(r, x, j) <==> Crossed(s, IntersectsSquare, x, j)
    {
      HitsOverComplete(s, IntersectsSquare, s.order, x, j);
    }
    r
  }

  /** The `break` of `check_collisions`: when two planes cross the same record, the one later in map order is
      not queued for it. */
  lemma LaterCrosserSkipped(s: Server, x: nat, j: nat, b: nat, c: nat, nb: nat, nc: nat)
    requires Valid(s) && x in s.players && j < |s.players[x].records|
    requires nb < nc < |s.order| && s.order[nb] == b && s.order[nc] == c && b != x && c != x
    requires IntersectsSquare(s.players[x].records[j], Wing(s.players[b]))
    ensures var r := CheckCollisions(s);
      forall i :: 0 <= i < |r| && r[i].setter == x && r[i].record == j ==> r[i].collider != c
  {
    var r := CheckCollisions(s);
    var rec := s.players[x].records[j];
    forall i | 0 <= i < |r| && r[i].setter == x && r[i].record == j ensures r[i].collider != c {
      assert Genuine(s, IntersectsSquare, r[i]) && FirstInOrder(s, IntersectsSquare, r[i]);
      var n :| 0 <= n < |s.order| && s.order[n] == r[i].collider
        && NoneCross(s, IntersectsSquare, x, rec, s.order[..n]);
      CrosserNotBefore(s, IntersectsSquare, x, rec, s.order, n, nb);
      assert s.order[n] < s.order[nc];
    }
  }

  /** A plane that crosses the record cannot stand in a prefix none of whose planes crosses it. */
  lemma CrosserNotBefore(s: Server, test: HitTest, x: nat, rec: Surface, cs: seq<nat>, n: nat, k: nat)
    requires forall i :: 0 <= i < |cs| ==> cs[i] in s.players
    requires n <= |cs| && k < |cs| && cs[k] != x && test(rec, Wing(s.players[cs[k]]))
    requires NoneCross(s, test, x, rec, cs[..n])
    ensures n <= k
  {
  }

  /** `destroy_queue` after `check_collisions`: the colliders, in the order they were pushed. */
  function Queue(hits: seq<Hit>): (q: seq<nat>)
    ensures |q| == |hits| && forall i :: 0 <= i < |hits| ==> q[i] == hits[i].collider
  {
    seq(|hits|, i requires 0 <= i < |hits| => hits[i].collider)
  }

  /** `update_location(player)` inside the `update_world` loop: plane `id` moves and nothing else changes. */
  function Stepped(s: Server, id: nat, m: Motion): (s1: Server)
    requires Valid(s) && id in s.players
    ensures Valid(s1) && s1.order == s.order && s1.curId == s.curId && s1.destroyed == s.destroyed
    ensures s1.players.Keys == s.players.Keys && s1.players[id] == UpdateLocation(s.players[id], m)
    ensures forall k :: k in s.players && k != id ==> s1.players[k] == s.players[k]
  {
    s.(players := s.players[id := UpdateLocation(s.players[id], m)])
  }

  /** One pass of the `update_world` loop for plane `id`: it moves, every record of every plane is checked,
      and the queued planes are removed and broadcast. The planes that stay are exactly those of the map
      after the move that no record queued, each as the move left it; see `VisitSurvivors` for which. */
  function Visit(s: Server, id: nat, m: Motion): (s': Server)
    requires Valid(s) && id in s.players
    ensures Valid(s') && s'.curId == s.curId
    ensures forall k :: k in s'.players ==> k in s.players
    ensures forall k :: k in s'.players <==> k in s.players && k !in Queue(CheckCollisions(Stepped(s, id, m)))
    ensures forall k :: k in s'.players ==> s'.players[k] == Stepped(s, id, m).players[k]
    ensures id in s'.players ==> s'.players[id] == UpdateLocation(s.players[id], m)
    ensures forall k :: k in s'.destroyed <==> k in s.destroyed || (k in s.players && k !in s'.players)
  {
    var s1 := Stepped(s, id, m);
    ClearDestroyedValid(s1, Queue(CheckCollisions(s1)));
    ClearDestroyed(s1, Queue(CheckCollisions(s1))).0
  }

  /** The `update_world` loop over the ids `ids`, in that order; an id no longer in the map when its turn
      comes is skipped, as a Map iterator skips deleted entries. `motion` gives each plane's guide positions
      after it moves. Planes only leave, and each one that leaves is broadcast. */
  function UpdateWorld(s: Server, ids: seq<nat>, motion: nat -> Motion): (s': Server)
    requires Valid(s)
    ensures Valid(s') && s'.curId == s.curId
    ensures forall k :: k in s'.players ==> k in s.players
    ensures forall k :: k in s'.destroyed <==> k in s.destroyed || (k in s.players && k !in s'.players)
    decreases |ids|
  {
    if |ids| == 0 then s
    else if ids[0] in s.players then UpdateWorld(Visit(s, ids[0], motion(ids[0])), ids[1..], motion)
    else UpdateWorld(s, ids[1..], motion)
  }

  /** One firing of the `setInterval` timer: `update_world` visits the planes of the map as it stands, in
      insertion order, which is increasing id order. */
  function Tick(s: Server, motion: nat -> Motion): (s': Server)
    requires Valid(s)
    ensures Valid(s') && s'.curId == s.curId
    ensures forall k :: k in s'.players ==> k in s.players
    ensures forall k :: k in s'.destroyed <==> k in s.destroyed || (k in s.players && k !in s'.players)
  {
    UpdateWorld(s, s.order, motion)
  }

  /** A plane alone in the map is visited by the tick, moves, and survives it. */
  lemma LoneSurvives(s: Server, k: nat, motion: nat -> Motion)
    requires Valid(s) && s.players.Keys == {k}
    ensures Tick(s, motion).players.Keys == {k}
    ensures Tick(s, motion).players[k] == UpdateLocation(s.players[k], motion(k))
  {
    LoneOrder(s, k);
    var s1 := Visit(s, k, motion(k));
    assert [k][1..] == [];
    assert Tick(s, motion) == UpdateWorld(s, [k], motion) == UpdateWorld(s1, [], motion);
    LoneVisit(s, k, motion(k));
  }

  lemma LoneOrder(s: Server, k: nat)
    requires Valid(s) && s.players.Keys == {k}
    ensures s.order == [k]
  {
    assert k in s.order;
    if |s.order| > 1 {
      FirstTwoDiffer(s.order);
    }
  }

  lemma FirstTwoDiffer(xs: seq<nat>)
    requires Increasing(xs) && |xs| > 1
    ensures xs[0] != xs[1]
  {
  }

  lemma LoneVisit(s: Server, k: nat, m: Motion)
    requires Valid(s) && s.players.Keys == {k}
    ensures Visit(s, k, m).players.Keys == {k}
  {
    assert Stepped(s, k, m).players.Keys == {k};
    VisitSurvivors(s, k, m, k);
  }

  /** A visit removes a plane only if, after the move, its guide segment crosses a record of another plane:
      a plane crossing no such record survives. */
  lemma VisitSurvivors(s: Server, id: nat, m: Motion, k: nat)
    requires Valid(s) && id in s.players && k in s.players
    ensures var s1 := Stepped(s, id, m);
      (forall x, j :: x in s1.players && x != k && 0 <= j < |s1.players[x].records| ==>
        !IntersectsSquare(s1.players[x].records[j], Wing(s1.players[k])))
      ==> k in Visit(s, id, m).players
  {
    var s1 := Stepped(s, id, m);
    var hits := CheckCollisions(s1);
    if k in Queue(hits) {
      var i :| 0 <= i < |hits| && Queue(hits)[i] == k;
      assert Genuine(s1, IntersectsSquare, hits[i]);
    }
  }
}
