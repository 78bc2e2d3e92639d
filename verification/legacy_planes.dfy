/** The planes of server.js, the earlier single-file server: a plane is its two guide spheres, a trail of
    guide positions and a buffer of collision records, and it flies with no arena, cells or countdown. */
module LegacyPlanes {
  import opened Vectors
  import opened JsValues
  import opened Collision
  import Planes

  /** Number of entries in a plane's trail; the record buffer holds one fewer. */
  const TrailLength: nat := 100
  const NormalSpeed: real := 0.5
  const FastSpeed: real := 3.0
  const InitialGas: real := 1000.0

  type TrailEntry = Planes.TrailEntry

  /** A `Player` of server.js. Its three.js plane is represented by the world positions of its left and right
      guide spheres; the mouse fields hold whatever the last status message carried, untyped. */
  datatype Player = Player(
    id: nat,
    xFrac: JsValue,
    yFrac: JsValue,
    click: JsValue,
    gas: real,
    records: seq<Surface>,
    trail: seq<TrailEntry>,
    left: Vec3,
    right: Vec3)

  /** The buffers have the sizes `update_trail` keeps: a full trail, and fewer records than trail entries. */
  predicate Shaped(p: Player) {
    |p.trail| == TrailLength && |p.records| < TrailLength
  }

  /** The constructor: the trail holds TrailLength copies of the guides' starting positions, no records, a
      full tank and the mouse at rest. The random starting point is the caller's choice of `left` and `right`. */
  function NewPlayer(id: nat, left: Vec3, right: Vec3): (p: Player)
    ensures Shaped(p) && p.id == id && p.records == [] && p.gas == InitialGas && !Truthy(p.click)
    ensures p.left == left && p.right == right
    ensures forall i :: 0 <= i < |p.trail| ==> p.trail[i] == Planes.TrailEntry(left, right)
  {
    Player(id, JsNumber(0.0), JsNumber(0.0), JsBool(false), InitialGas, [],
      seq(TrailLength, _ => Planes.TrailEntry(left, right)), left, right)
  }

  /** `player.click ? FAST_SPEED : NORMAL_SPEED` */
  function Speed(click: JsValue): (s: real)
    ensures s == FastSpeed <==> Truthy(click)
    ensures s == NormalSpeed <==> !Truthy(click)
    ensures s > 0.0
  {
    if Truthy(click) then FastSpeed else NormalSpeed
  }

  /** The record `update_trail` builds for the quadrilateral swept since the last tick: spanning vectors
      new_right - new_left and new_right - old_right, their cross product as normal, old_left as vertex, and
      `inv` standing for what Matrix3.getInverse leaves in `matrix`. */
  function SweptRecord(oldLeft: Vec3, oldRight: Vec3, newLeft: Vec3, newRight: Vec3, inv: Mat3): (s: Surface)
    ensures s.point == oldLeft && s.matrix == inv
    ensures Dot(Sub(newRight, newLeft), s.normal) == 0.0 && Dot(Sub(newRight, oldRight), s.normal) == 0.0
  {
    CrossOrthogonal(Sub(newRight, newLeft), Sub(newRight, oldRight));
    Surface(inv, Cross(Sub(newRight, newLeft), Sub(newRight, oldRight)), oldLeft)
  }

  /** When the guides moved by a pure translation, the record's parallelogram is the rectangle the wing swept:
      its corners are the old and the new guide positions. */
  lemma SweptCorners(oldLeft: Vec3, oldRight: Vec3, d: Vec3)
    ensures var v1 := Sub(Add(oldRight, d), Add(oldLeft, d));
      var v2 := Sub(Add(oldRight, d), oldRight);
      && Add(oldLeft, v1) == oldRight
      && Add(oldLeft, v2) == Add(oldLeft, d)
      && Add(oldLeft, Add(v1, v2)) == Add(oldRight, d)
  {
  }

  /** With a regular matrix inverted, the unit-square test of server.js decides exactly whether a guide
      segment crosses the swept parallelogram. */
  lemma SweptHit(oldLeft: Vec3, oldRight: Vec3, newLeft: Vec3, newRight: Vec3, inv: Mat3, e: Edge)
    requires var v1 := Sub(newRight, newLeft);
      var v2 := Sub(newRight, oldRight);
      IsInverse(inv, Columns(v1, v2, Cross(v1, v2)))
    ensures var v1 := Sub(newRight, newLeft);
      var v2 := Sub(newRight, oldRight);
      var s := SweptRecord(oldLeft, oldRight, newLeft, newRight, inv);
      IntersectsSquare(s, e) <==> !Parallel(s, e) && MeetsParallelogram(oldLeft, v1, v2, e)
  {
    var s := SweptRecord(oldLeft, oldRight, newLeft, newRight, inv);
    IntersectsSquareMeansParallelogram(s, Sub(newRight, newLeft), Sub(newRight, oldRight), e);
  }

  /** `update_trail`, on a plane whose guides have already moved: one record for the newest quadrilateral,
      the oldest record evicted first once the buffer holds TrailLength - 1, and the trail shifted by the new
      guide positions. */
  function UpdateTrail(p: Player, inv: Mat3): (q: Player)
    requires |p.trail| == TrailLength
    ensures q == p.(records := q.records, trail := q.trail)
    ensures |q.trail| == TrailLength && q.trail[TrailLength - 1] == Planes.TrailEntry(p.left, p.right)
    ensures forall i :: 0 <= i < TrailLength - 1 ==> q.trail[i] == p.trail[i + 1]
    ensures |q.records| >= 1 && q.records[|q.records| - 1]
      == SweptRecord(p.trail[TrailLength - 1].left, p.trail[TrailLength - 1].right, p.left, p.right, inv)
    ensures |p.records| == TrailLength - 1 ==> q.records[..|q.records| - 1] == p.records[1..]
    ensures |p.records| != TrailLength - 1 ==> q.records[..|q.records| - 1] == p.records
  {
    var last := p.trail[TrailLength - 1];
    var rec := SweptRecord(last.left, last.right, p.left, p.right, inv);
    var kept := if |p.records| == TrailLength - 1 then p.records[1..] else p.records;
    assert (kept + [rec])[..|kept|] == kept;
    p.(records := kept + [rec], trail := (p.trail + [Planes.TrailEntry(p.left, p.right)])[1..])
  }

  /** What the scene graph supplies for one tick: the guides' world positions after `rotateY`, `rotateX` and
      `translateZ`, and the inverse of the new record's matrix. */
  datatype Motion = Motion(left: Vec3, right: Vec3, inv: Mat3)

  /** `update_location`: the speed follows the mouse button, the tank loses exactly that much with no lower
      bound, the guides move, and the trail is updated. The mouse fields and the id are kept. */
  function UpdateLocation(p: Player, m: Motion): (q: Player)
    requires Shaped(p)
    ensures Shaped(q)
    ensures q.id == p.id && q.xFrac == p.xFrac && q.yFrac == p.yFrac && q.click == p.click
    ensures q.left == m.left && q.right == m.right
    ensures q.gas == p.gas - Speed(p.click)
    ensures |q.records| == if |p.records| == TrailLength - 1 then |p.records| else |p.records| + 1
  {
    UpdateTrail(p.(gas := p.gas - Speed(p.click), left := m.left, right := m.right), m.inv)
  }

  /** A plane updated once per motion of `ms`, in order. */
  function Fly(p: Player, ms: seq<Motion>): (q: Player)
    requires Shaped(p)
    ensures Shaped(q) && q.id == p.id && q.click == p.click
    decreases |ms|
  {
    if |ms| == 0 then p else Fly(UpdateLocation(p, ms[0]), ms[1..])
  }

  /** The trail entries the motions of `ms` produce. */
  function Entries(ms: seq<Motion>): (r: seq<TrailEntry>)
    ensures |r| == |ms|
    ensures forall i :: 0 <= i < |ms| ==> r[i] == Planes.TrailEntry(ms[i].left, ms[i].right)
  {
    seq(|ms|, i requires 0 <= i < |ms| => Planes.TrailEntry(ms[i].left, ms[i].right))
  }

  /** The trail is a first-in first-out buffer: after any number of ticks it holds the last TrailLength guide
      positions, counting the ones it started with. */
  lemma {:induction false} FlyTrail(p: Player, ms: seq<Motion>)
    requires Shaped(p)
    ensures Fly(p, ms).trail == (p.trail + Entries(ms))[|ms|..]
    decreases |ms|
  {
    if |ms| > 0 {
      var q := UpdateLocation(p, ms[0]);
      var e := Planes.TrailEntry(ms[0].left, ms[0].right);
      assert Fly(p, ms) == Fly(q, ms[1..]);
      FlyTrail(q, ms[1..]);
      Shifted(p.trail, q.trail, e);
      EntriesCons(ms);
      DropShift(p.trail, e, Entries(ms[1..]));
    }
  }

  /** The per-entry description of a shifted trail determines it. */
  lemma Shifted(a: seq<TrailEntry>, b: seq<TrailEntry>, e: TrailEntry)
    requires |a| == |b| == TrailLength && b[TrailLength - 1] == e
    requires forall i :: 0 <= i < TrailLength - 1 ==> b[i] == a[i + 1]
    ensures b == (a + [e])[1..]
  {
  }

  lemma EntriesCons(ms: seq<Motion>)
    requires |ms| > 0
    ensures Entries(ms) == [Planes.TrailEntry(ms[0].left, ms[0].right)] + Entries(ms[1..])
  {
  }

  /** Dropping k entries after a shift is dropping k + 1 entries before it. */
  lemma DropShift<T>(a: seq<T>, e: T, es: seq<T>)
    requires |a| > 0
    ensures ((a + [e])[1..] + es)[|es|..] == (a + ([e] + es))[|es| + 1..]
  {
    assert (a + [e])[1..] + es == (a + ([e] + es))[1..];
  }

  /** The record buffer grows by one per tick until it holds TrailLength - 1 records, and then stays there. */
  lemma {:induction false} FlyRecords(p: Player, ms: seq<Motion>)
    requires Shaped(p) && |p.records| <= TrailLength - 1
    ensures |Fly(p, ms).records| == if |p.records| + |ms| < TrailLength - 1 then |p.records| + |ms| else TrailLength - 1
    decreases |ms|
  {
    if |ms| > 0 {
      FlyRecords(UpdateLocation(p, ms[0]), ms[1..]);
    }
  }

  /** The gas `n` ticks at speed `v` burn, tick by tick. */
  function Burned(n: nat, v: real): real {
    if n == 0 then 0.0 else v + Burned(n - 1, v)
  }

  /** With the button held in one position throughout, the tank loses the same amount every tick. */
  lemma {:induction false} FlyGas(p: Player, ms: seq<Motion>)
    requires Shaped(p)
    ensures Fly(p, ms).gas == p.gas - Burned(|ms|, Speed(p.click))
    decreases |ms|
  {
    if |ms| > 0 {
      var q := UpdateLocation(p, ms[0]);
      assert Fly(p, ms) == Fly(q, ms[1..]);
      FlyGas(q, ms[1..]);
    }
  }

  /** Summed tick by tick, `n` ticks at speed `v` burn `n` times `v`. */
  lemma {:induction false} BurnedProduct(n: nat, v: real)
    ensures Burned(n, v) == (n as real) * v
  {
    if n > 0 {
      BurnedProduct(n - 1, v);
      assert (n as real) * v == v + ((n - 1) as real) * v;
    }
  }

  /** Nothing stops a plane when its tank is empty: a new plane cruising for 2001 ticks is at -0.5. */
  lemma GasGoesNegative(id: nat, left: Vec3, right: Vec3, ms: seq<Motion>)
    requires |ms| == 2001
    ensures Fly(NewPlayer(id, left, right), ms).gas == -0.5
  {
    FlyGas(NewPlayer(id, left, right), ms);
    BurnedProduct(2001, NormalSpeed);
  }
}
