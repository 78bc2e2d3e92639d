/** The speed and gas governor and the obstacle crash test of `update_location` in js/server.js. */
module Flight {
  import opened Vectors
  import opened Config

  /** The speed of a tick: fast only while the mouse is held and there is gas left. */
  function Speed(click: bool, gas: int): (r: real)
    ensures r == FastSpeed <==> click && gas > 0
    ensures r == NormalSpeed <==> !(click && gas > 0)
  {
    if click && gas > 0 then FastSpeed else NormalSpeed
  }

  /** The gas after a tick: replenished at normal speed, depleted at fast speed, capped at the initial amount. */
  function NextGas(click: bool, gas: int): (r: int)
    ensures r <= InitialGas
    ensures click && gas > 0 && gas <= InitialGas ==> r == gas + GasDeplete
    ensures !(click && gas > 0) && gas + GasReplenish <= InitialGas ==> r == gas + GasReplenish
    ensures !(click && gas > 0) && gas <= InitialGas ==> gas <= r
    ensures !(click && gas > 0) ==> r == if gas + GasReplenish < InitialGas then gas + GasReplenish else InitialGas
    ensures click && gas > 0 ==> r == if gas + GasDeplete < InitialGas then gas + GasDeplete else InitialGas
  {
    var g := gas + (if Speed(click, gas) == NormalSpeed then GasReplenish else GasDeplete);
    if g < InitialGas then g else InitialGas
  }

  /** The values gas can take: one fast tick from 1 reaches GasDeplete + 1; there is no floor at 0. */
  predicate GasInRange(gas: int) {
    GasDeplete + 1 <= gas <= InitialGas
  }

  /** The gas after a sequence of ticks with the given mouse states. */
  function Run(gas: int, clicks: seq<bool>): (r: int)
    ensures GasInRange(gas) ==> GasInRange(r)
    decreases |clicks|
  {
    if |clicks| == 0 then gas
    else Run(NextGas(clicks[0], gas), clicks[1..])
  }

  lemma {:induction false} RunAppend(gas: int, a: seq<bool>, b: seq<bool>)
    ensures Run(gas, a + b) == Run(Run(gas, a), b)
    decreases |a|
  {
    if |a| > 0 {
      assert (a + b)[0] == a[0] && (a + b)[1..] == a[1..] + b;
      RunAppend(NextGas(a[0], gas), a[1..], b);
    } else {
      assert a + b == b;
    }
  }

  /** `n` copies of `x`: the mouse held in one position for `n` ticks, or the filler `deploy_player` pumps
      into a plane's buffers. */
  function Filled<T>(x: T, n: nat): (r: seq<T>)
    ensures |r| == n && forall i :: 0 <= i < n ==> r[i] == x
  {
    seq(n, i => x)
  }

  /** Holding the mouse for k ticks costs 3k gas while the tank lasts. */
  lemma {:induction false} FastRun(gas: int, k: nat)
    requires gas <= InitialGas && gas + GasDeplete * (k - 1) > 0
    ensures Run(gas, Filled(true, k)) == gas + GasDeplete * k
    decreases k
  {
    if k > 0 {
      assert Filled(true, k)[1..] == Filled(true, k - 1);
      FastRun(gas + GasDeplete, k - 1);
    }
  }

  /** A full tank emptied to 0, refilled to 4 and held for two more ticks ends at -2. */
  lemma GasGoesNegative()
    ensures Run(InitialGas, Filled(true, 100) + Filled(false, 2) + Filled(true, 2)) == GasDeplete + 1
  {
    FastRun(InitialGas, 100);
    RunAppend(InitialGas, Filled(true, 100), Filled(false, 2));
    RunAppend(InitialGas, Filled(true, 100) + Filled(false, 2), Filled(true, 2));
    assert Run(0, Filled(false, 2)) == 4;
    FastRun(4, 2);
  }

  /** The plane's centre is close enough to the obstacle for the guides to be checked. */
  predicate NearObstacle(pos: Vec3) {
    DistSq(pos, Center) <= RadiusBufferSquared
  }

  /** `crashed`: a guide lies strictly inside the obstacle sphere. */
  predicate GuideInside(g: Vec3) {
    DistSq(g, Center) < RadiusSquared
  }

  /** The crash test of `update_location` over the plane's centre and its four guides. */
  predicate Crashed(pos: Vec3, guides: seq<Vec3>) {
    NearObstacle(pos) && exists i :: 0 <= i < |guides| && GuideInside(guides[i])
  }

  /** A point within `side_length` of the plane's centre, as every guide is. */
  predicate WithinPlane(pos: Vec3, g: Vec3) {
    DistSq(g, pos) <= SideLength * SideLength
  }

  /** The cheap distance test in front of the guide checks never hides a crash. */
  lemma BroadPhaseSound(pos: Vec3, g: Vec3)
    requires WithinPlane(pos, g) && GuideInside(g)
    ensures NearObstacle(pos)
  {
    var a, b := Sub(pos, g), Sub(g, Center);
    assert Sub(pos, Center) == Add(a, b);
    SumBound(a, b);
  }

  /** The squared triangle inequality for lengths below 15 and 100. */
  lemma SumBound(a: Vec3, b: Vec3)
    requires Dot(a, a) <= 225.0 && Dot(b, b) < 10000.0
    ensures Dot(Add(a, b), Add(a, b)) < 13225.0
  {
    DotExpand(a, b);
    CauchyBound(a, b);
  }

  lemma DotExpand(a: Vec3, b: Vec3)
    ensures Dot(Add(a, b), Add(a, b)) == Dot(a, a) + 2.0 * Dot(a, b) + Dot(b, b)
  {
  }

  /** Cauchy-Schwarz for lengths at most 15 and 100. */
  lemma CauchyBound(a: Vec3, b: Vec3)
    requires Dot(a, a) <= 225.0 && Dot(b, b) <= 10000.0
    ensures Dot(a, b) <= 1500.0
  {
    Lagrange(a, b);
    DotSelfNonNegative(a);
    DotSelfNonNegative(b);
    DotSelfNonNegative(Cross(a, b));
    ProductBound(Dot(a, a), Dot(b, b), Dot(a, b), Dot(Cross(a, b), Cross(a, b)));
  }

  lemma ProductBound(aa: real, bb: real, ab: real, cc: real)
    requires aa * bb - ab * ab == cc && cc >= 0.0
    requires 0.0 <= aa <= 225.0 && 0.0 <= bb <= 10000.0
    ensures ab <= 1500.0
  {
    var prod := aa * bb;
    MulBound(aa, bb, 225.0, 10000.0, prod);
    SquareBound(ab, ab * ab, prod);
  }

  lemma SquareBound(t: real, sq: real, p: real)
    requires sq == t * t && sq <= p && p <= 2250000.0
    ensures t <= 1500.0
  {
    if t > 1500.0 {
      MulPositive(t - 1500.0, t + 1500.0, sq - 2250000.0);
    }
  }

  lemma MulBound(x: real, y: real, hx: real, hy: real, p: real)
    requires 0.0 <= x <= hx && 0.0 <= y <= hy && p == x * y
    ensures p <= hx * hy
  {
    if x > 0.0 && hy - y > 0.0 { MulPositive(x, hy - y, x * hy - p); }
    if hx - x > 0.0 && hy > 0.0 { MulPositive(hx - x, hy, hx * hy - x * hy); }
  }

  /** With every guide within the plane's extent, the crash test is exactly "some guide is inside the obstacle". */
  lemma CrashedExactly(pos: Vec3, guides: seq<Vec3>)
    requires forall i :: 0 <= i < |guides| ==> WithinPlane(pos, guides[i])
    ensures Crashed(pos, guides) <==> exists i :: 0 <= i < |guides| && GuideInside(guides[i])
  {
    if exists i :: 0 <= i < |guides| && GuideInside(guides[i]) {
      var i :| 0 <= i < |guides| && GuideInside(guides[i]);
      BroadPhaseSound(pos, guides[i]);
    }
  }
}
