/** Route smoothing: way points that lie on the line between their neighbours and carry no
    action are dropped. What that does to length, safety and flight time. */
module RouteOptimizers {
  import opened Reals
  import opened Wrappers
  import opened FlightPlans

  const TOLERANCE: real := 0.01

  predicate Collinear(a: Waypoint, b: Waypoint, c: Waypoint) {
    Abs((b.latitude - a.latitude) * (c.longitude - a.longitude)
        - (c.latitude - a.latitude) * (b.longitude - a.longitude)) < TOLERANCE
  }

  predicate HasAction(w: Waypoint) {
    w.action.Some? && w.action.value != ""
  }

  /** Way point `i` may be dropped: inner, action-free and in line with its original neighbours. */
  predicate Droppable(ws: seq<Waypoint>, i: nat)
    requires i < |ws|
  {
    0 < i < |ws| - 1 && !HasAction(ws[i]) && Collinear(ws[i - 1], ws[i], ws[i + 1])
  }

  /** `out` is `ws` read at the increasing positions `at`: the two ends, the way points with an action,
      and those at which the triangle with the two neighbours spans 0.01 or more. */
  ghost predicate Selects(ws: seq<Waypoint>, out: seq<Waypoint>, at: seq<nat>) {
    && |at| == |out|
    && (forall k, l :: 0 <= k < l < |at| ==> at[k] < at[l])
    && (forall k :: 0 <= k < |at| ==> at[k] < |ws| && out[k] == ws[at[k]])
    && (forall i: nat :: i < |ws| ==> (i in at <==> Stays(ws, i)))
  }

  predicate Stays(ws: seq<Waypoint>, i: nat)
    requires i < |ws|
  {
    i == 0 || i == |ws| - 1 || (ws[i].action != None && ws[i].action != Some(""))
    || !(-0.01 < Spanned(ws[i - 1], ws[i], ws[i + 1]) < 0.01)
  }

  /** Twice the signed area, in square degrees. */
  function Spanned(a: Waypoint, b: Waypoint, c: Waypoint): real {
    (b.latitude - a.latitude) * (c.longitude - a.longitude) - (c.latitude - a.latitude) * (b.longitude - a.longitude)
  }

  function KeptUpTo(ws: seq<Waypoint>, n: nat): seq<Waypoint>
    requires n <= |ws|
  {
    if n == 0 then []
    else KeptUpTo(ws, n - 1) + (if Droppable(ws, n - 1) then [] else [ws[n - 1]])
  }

  function Optimized(ws: seq<Waypoint>): seq<Waypoint> {
    KeptUpTo(ws, |ws|)
  }

  function OptimizedPlan(p: FlightPlan): FlightPlan {
    p.(waypoints := Optimized(p.waypoints))
  }

  method OptimizeRoute(p: FlightPlan) returns (r: FlightPlan)
    ensures r == OptimizedPlan(p)
  {
    var waypoints := p.waypoints;
    var optimized := [];
    for i := 0 to |waypoints|
      invariant optimized == KeptUpTo(waypoints, i)
    {
      var w := waypoints[i];
      if i == 0 || i == |waypoints| - 1 {
        optimized := optimized + [w];
      } else {
        var prev, next := waypoints[i - 1], waypoints[i + 1];
        if !HasAction(w) && Collinear(prev, w, next) {
          continue;
        }
        optimized := optimized + [w];
      }
    }
    r := p.(waypoints := optimized);
  }

  ghost function KeptPositions(ws: seq<Waypoint>, n: nat): seq<nat>
    requires n <= |ws|
  {
    if n == 0 then []
    else KeptPositions(ws, n - 1) + (if Droppable(ws, n - 1) then [] else [n - 1])
  }

  lemma {:induction false} PositionsSelect(ws: seq<Waypoint>, n: nat)
    requires n <= |ws|
    ensures var at := KeptPositions(ws, n);
            && |at| == |KeptUpTo(ws, n)|
            && (forall k :: 0 <= k < |at| ==> at[k] < n && KeptUpTo(ws, n)[k] == ws[at[k]])
            && (forall k, l :: 0 <= k < l < |at| ==> at[k] < at[l])
            && (forall i: nat :: i < n ==> (i in at <==> !Droppable(ws, i)))
  {
    if n > 0 {
      PositionsSelect(ws, n - 1);
    }
  }

  lemma DroppableMeans(ws: seq<Waypoint>, i: nat)
    requires i < |ws|
    ensures Stays(ws, i) <==> !Droppable(ws, i)
  {
    if 0 < i < |ws| - 1 {
      var a, b, c := ws[i - 1], ws[i], ws[i + 1];
      assert Spanned(a, b, c) == (b.latitude - a.latitude) * (c.longitude - a.longitude)
                                 - (c.latitude - a.latitude) * (b.longitude - a.longitude);
    }
  }

  /** The result is the subsequence of undroppable way points; first, last and every
      action-bearing way point survive. */
  lemma OptimizedIsSubsequence(ws: seq<Waypoint>)
    ensures exists at: seq<nat> :: Selects(ws, Optimized(ws), at)
    ensures forall w <- ws :: HasAction(w) ==> w in Optimized(ws)
    ensures ws != [] ==> Optimized(ws) != [] && Optimized(ws)[0] == ws[0]
                         && Optimized(ws)[|Optimized(ws)| - 1] == ws[|ws| - 1]
  {
    hide Spanned, Droppable;
    PositionsSelect(ws, |ws|);
    var at := KeptPositions(ws, |ws|);
    forall i: nat | i < |ws| ensures i in at <==> Stays(ws, i) {
      DroppableMeans(ws, i);
    }
    assert Selects(ws, Optimized(ws), at);
    forall w | w in ws && HasAction(w) ensures w in Optimized(ws) {
      var i: nat :| i < |ws| && ws[i] == w;
      assert i in at;
      var k :| 0 <= k < |at| && at[k] == i;
      assert Optimized(ws)[k] == w;
    }
    if ws != [] {
      assert 0 in at;
      var k :| 0 <= k < |at| && at[k] == 0;
      assert |ws| - 1 in at;
    }
  }

  lemma OptimizedWaypointsAreOld(ws: seq<Waypoint>)
    ensures forall w <- Optimized(ws) :: w in ws
  {
    PositionsSelect(ws, |ws|);
  }

  // ----- length

  function Mul(a: real, b: real): real {
    a * b
  }

  lemma MulMonotone(a: real, b: real, c: real, d: real)
    requires 0.0 <= a <= c && 0.0 <= b <= d
    ensures Mul(a, b) <= Mul(c, d)
  {
    assert a * b <= c * b;
    assert c * b <= c * d;
  }

  lemma StrictSquares(x: real, y: real)
    requires 0.0 <= y < x
    ensures y * y < x * x
  {
    var d := x - y;
    assert d * d > 0.0 && y * d >= 0.0;
    assert x * x == y * y + 2.0 * (y * d) + d * d;
  }

  lemma SquareOrder(x: real, y: real)
    requires 0.0 <= y && Mul(x, x) <= Mul(y, y)
    ensures x <= y
  {
    if x > y {
      StrictSquares(x, y);
    }
  }

  /** Cauchy's inequality in the plane. */
  lemma Cauchy(h1: real, v1: real, h2: real, v2: real)
    ensures (h1 * h2 + v1 * v2) * (h1 * h2 + v1 * v2) <= (h1 * h1 + v1 * v1) * (h2 * h2 + v2 * v2)
  {
    var d := h1 * v2 - h2 * v1;
    assert d * d >= 0.0;
    assert (h1 * h1 + v1 * v1) * (h2 * h2 + v2 * v2)
        == (h1 * h2 + v1 * v2) * (h1 * h2 + v1 * v2) + d * d;
  }

  /** The slant length of a climb is subadditive: Minkowski's inequality in the plane. */
  lemma SlantTriangle(g: Geodesy, h1: real, v1: real, h2: real, v2: real, h3: real, v3: real)
    requires g.SquareRoot()
    requires 0.0 <= h1 && 0.0 <= v1 && 0.0 <= h2 && 0.0 <= v2
    requires 0.0 <= h3 <= h1 + h2 && 0.0 <= v3 <= v1 + v2
    ensures g.Slant(h3, v3) <= g.Slant(h1, v1) + g.Slant(h2, v2)
  {
    hide Mul;
    var a, b, c := g.Slant(h1, v1), g.Slant(h2, v2), g.Slant(h3, v3);
    Squared(g, h1, v1);
    Squared(g, h2, v2);
    Squared(g, h3, v3);
    MulMonotone(h3, h3, h1 + h2, h1 + h2);
    MulMonotone(v3, v3, v1 + v2, v1 + v2);
    InnerProduct(h1, v1, h2, v2, a, b);
    SumOfSquares(h1, h2);
    SumOfSquares(v1, v2);
    SumOfSquares(a, b);
    SquareOrder(c, a + b);
  }

  lemma InnerProduct(h1: real, v1: real, h2: real, v2: real, a: real, b: real)
    requires 0.0 <= a && 0.0 <= b
    requires Mul(a, a) == Mul(h1, h1) + Mul(v1, v1) && Mul(b, b) == Mul(h2, h2) + Mul(v2, v2)
    ensures Mul(h1, h2) + Mul(v1, v2) <= Mul(a, b)
  {
    Cauchy(h1, v1, h2, v2);
    assert (a * b) * (a * b) == (a * a) * (b * b);
    assert a * b >= 0.0;
    SquareOrder(h1 * h2 + v1 * v2, a * b);
  }

  lemma Squared(g: Geodesy, h: real, v: real)
    requires g.SquareRoot()
    ensures g.Slant(h, v) >= 0.0 && Mul(g.Slant(h, v), g.Slant(h, v)) == Mul(h, h) + Mul(v, v)
  {
    assert h * h >= 0.0 && v * v >= 0.0;
  }

  lemma SumOfSquares(x: real, y: real)
    ensures Mul(x + y, x + y) == Mul(x, x) + 2.0 * Mul(x, y) + Mul(y, y)
  {
  }

  /** The leg length, climb included, is a metric whenever the ground distance is. */
  lemma LegTriangle(g: Geodesy, a: Waypoint, b: Waypoint, c: Waypoint)
    requires g.Metric() && g.SquareRoot()
    ensures g.Leg(a, c) <= g.Leg(a, b) + g.Leg(b, c)
  {
    var h1, h2, h3 := g.Between(a, b), g.Between(b, c), g.Between(a, c);
    var v1, v2, v3 := Abs(b.altitude - a.altitude), Abs(c.altitude - b.altitude), Abs(c.altitude - a.altitude);
    assert h3 <= h1 + h2 by {
      assert g.TriangleAt(a.latitude, a.longitude, b.latitude, b.longitude, c.latitude, c.longitude);
    }
    SlantTriangle(g, h1, v1, h2, v2, h3, v3);
  }

  lemma LegZero(g: Geodesy, a: Waypoint)
    requires g.Metric() && g.SquareRoot()
    ensures g.Leg(a, a) == 0.0
  {
    Squared(g, 0.0, 0.0);
    SquareOrder(g.Slant(0.0, 0.0), 0.0);
    assert g.Leg(a, a) == g.Slant(0.0, 0.0);
  }

  predicate LegTriangleAt(g: Geodesy, a: Waypoint, b: Waypoint, c: Waypoint) {
    g.Leg(a, c) <= g.Leg(a, b) + g.Leg(b, c) && g.Leg(c, c) == 0.0
  }

  ghost predicate LegMetric(g: Geodesy) {
    forall a, b, c :: LegTriangleAt(g, a, b, c)
  }

  lemma LegIsMetric(g: Geodesy)
    requires g.Metric() && g.SquareRoot()
    ensures LegMetric(g)
  {
    forall a, b, c ensures LegTriangleAt(g, a, b, c) {
      LegTriangle(g, a, b, c);
      LegZero(g, c);
    }
  }

  /** After `n` way points, the kept part plus the leg to the way point just passed is no longer
      than the original part. */
  lemma {:induction false} KeptIsShorter(g: Geodesy, ws: seq<Waypoint>, n: nat)
    requires LegMetric(g)
    requires 0 < n <= |ws|
    ensures KeptUpTo(ws, n) != []
    ensures var kept := KeptUpTo(ws, n);
            TotalDistance(g, kept) + g.Leg(kept[|kept| - 1], ws[n - 1]) <= TotalDistance(g, ws[..n])
  {
    hide TotalDistance, Droppable, LegMetric;
    if n == 1 {
      KeptOne(g, ws);
    } else {
      KeptIsShorter(g, ws, n - 1);
      KeptOneMore(g, ws, n);
    }
  }

  lemma KeptOne(g: Geodesy, ws: seq<Waypoint>)
    requires LegMetric(g) && ws != []
    ensures KeptUpTo(ws, 1) == [ws[0]] && TotalDistance(g, [ws[0]]) + g.Leg(ws[0], ws[0]) == TotalDistance(g, ws[..1])
  {
    assert LegTriangleAt(g, ws[0], ws[0], ws[0]);
    assert KeptUpTo(ws, 0) == [] && ws[..1] == [ws[0]];
  }

  lemma KeptOneMore(g: Geodesy, ws: seq<Waypoint>, n: nat)
    requires LegMetric(g) && 1 < n <= |ws| && KeptUpTo(ws, n - 1) != []
    requires var kept := KeptUpTo(ws, n - 1);
             TotalDistance(g, kept) + g.Leg(kept[|kept| - 1], ws[n - 2]) <= TotalDistance(g, ws[..n - 1])
    ensures KeptUpTo(ws, n) != []
    ensures var kept := KeptUpTo(ws, n);
            TotalDistance(g, kept) + g.Leg(kept[|kept| - 1], ws[n - 1]) <= TotalDistance(g, ws[..n])
  {
    hide TotalDistance, Droppable;
    var kept := KeptUpTo(ws, n - 1);
    var last := kept[|kept| - 1];
    assert ws[..n] == ws[..n - 1] + [ws[n - 1]];
    OneMoreWaypoint(g, ws[..n - 1], ws[n - 1]);
    assert LegTriangleAt(g, last, ws[n - 2], ws[n - 1]);
    if Droppable(ws, n - 1) {
      assert KeptUpTo(ws, n) == kept;
    } else {
      assert KeptUpTo(ws, n) == kept + [ws[n - 1]];
      OneMoreWaypoint(g, kept, ws[n - 1]);
      assert LegTriangleAt(g, ws[n - 1], ws[n - 1], ws[n - 1]);
    }
  }

  /** Dropping way points never lengthens the route, however many neighbours go together. */
  lemma OptimizedIsNoLonger(g: Geodesy, ws: seq<Waypoint>)
    requires g.Metric() && g.SquareRoot()
    ensures TotalDistance(g, Optimized(ws)) <= TotalDistance(g, ws)
  {
    LegIsMetric(g);
    if ws != [] {
      KeptIsShorter(g, ws, |ws|);
      assert ws[..|ws|] == ws;
      OptimizedIsSubsequence(ws);
      assert LegTriangleAt(g, ws[|ws| - 1], ws[|ws| - 1], ws[|ws| - 1]);
    }
  }

  // ----- safety

  /** Optimising never makes an acceptable plan INVALID against the same active plans. */
  lemma OptimizedStaysAcceptable(g: Geodesy, zones: seq<Zone>, p: FlightPlan, active: map<string, FlightPlan>)
    requires Verdict(g, zones, p, active) != INVALID
    ensures Verdict(g, zones, OptimizedPlan(p), active) != INVALID
  {
    OptimizedWaypointsAreOld(p.waypoints);
    forall id | id in active && id != p.missionId ensures Separated(g, OptimizedPlan(p), active[id]) {
      assert Separated(g, p, active[id]);
    }
  }

  /** A VALID plan stays VALID exactly when its optimised flight time is still within the limit;
      otherwise it becomes a warning. Flight time can grow, because dropping a fast way point
      lowers the average speed of the merged leg. */
  lemma OptimizedVerdict(g: Geodesy, zones: seq<Zone>, p: FlightPlan, active: map<string, FlightPlan>)
    requires g.Metric() && g.SquareRoot()
    requires Verdict(g, zones, p, active) == VALID
    ensures Verdict(g, zones, OptimizedPlan(p), active)
         == if FlightDuration(g, Optimized(p.waypoints)) <= MAX_DURATION then VALID else WARNING
  {
    OptimizedStaysAcceptable(g, zones, p, active);
    OptimizedWaypointsAreOld(p.waypoints);
    OptimizedIsNoLonger(g, p.waypoints);
    var o := OptimizedPlan(p);
    forall w | w in o.waypoints ensures WaypointComfortable(g, o, w) {
      assert WaypointComfortable(g, p, w);
    }
  }

  /** Three way points about a kilometre apart on one meridian; only the middle one is flown fast. */
  function SlowFastSlow(): (ws: seq<Waypoint>)
    ensures ws != []
  {
    [Waypoint(0.0, 0.0, 50.0, 1.0, None, None),
     Waypoint(0.009, 0.0, 50.0, 20.0, None, None),
     Waypoint(0.018, 0.0, 50.0, 1.0, None, None)]
  }

  /** The distances between them, within bounds the haversine formula on a sphere of radius
      6371 km meets: 0.009 degrees are 1000.75 m. */
  predicate KilometreLegs(g: Geodesy) {
    var ws := SlowFastSlow();
    && 1000.0 <= g.Between(ws[0], ws[1]) <= 1001.0
    && 1000.0 <= g.Between(ws[1], ws[2]) <= 1001.0
    && 2000.0 <= g.Between(ws[0], ws[2])
    && forall i :: 0 <= i < 3 ==> g.Between(ws[i], ws[i]) == 0.0
  }

  lemma MiddleIsDropped()
    ensures var ws := SlowFastSlow(); Optimized(ws) == [ws[0], ws[2]]
  {
    var ws := SlowFastSlow();
    assert KeptUpTo(ws, 0) == [];
    assert KeptUpTo(ws, 1) == [ws[0]];
    assert Droppable(ws, 1);
    assert KeptUpTo(ws, 2) == [ws[0]];
    assert KeptUpTo(ws, 3) == [ws[0], ws[2]];
  }

  /** Flown at 10.5 m/s on average the route takes some 190 s; with the fast way point dropped it is
      flown at 1 m/s and takes over 2000 s. */
  lemma RouteTimes(g: Geodesy)
    requires KilometreLegs(g)
    ensures 0.0 <= FlightDuration(g, SlowFastSlow()) < 200.0
    ensures FlightDuration(g, Optimized(SlowFastSlow())) >= 2000.0
    ensures forall i :: 0 <= i < |SlowFastSlow()| ==> g.Between(SlowFastSlow()[i], SlowFastSlow()[i]) == 0.0
  {
    MiddleIsDropped();
    var ws := SlowFastSlow();
    assert ws[..2] == [ws[0], ws[1]] && ws[..2][..1] == [ws[0]];
    assert FlightDuration(g, ws[..2]) == LegTime(g, ws[0], ws[1]);
    assert FlightDuration(g, ws) == LegTime(g, ws[0], ws[1]) + LegTime(g, ws[1], ws[2]);
    assert [ws[0], ws[2]][..1] == [ws[0]];
    assert FlightDuration(g, [ws[0], ws[2]]) == LegTime(g, ws[0], ws[2]);
  }

  lemma LevelLeg(g: Geodesy, h: real)
    requires g.SquareRoot() && h >= 0.0
    ensures g.Slant(h, 0.0) <= h
  {
    Squared(g, h, 0.0);
    SquareOrder(g.Slant(h, 0.0), h);
  }

  lemma RouteLength(g: Geodesy)
    requires g.SquareRoot() && KilometreLegs(g)
    ensures TotalDistance(g, SlowFastSlow()) <= 2002.0
  {
    var ws := SlowFastSlow();
    LevelLeg(g, g.Between(ws[0], ws[1]));
    LevelLeg(g, g.Between(ws[1], ws[2]));
    assert ws[..2] == [ws[0], ws[1]] && ws[..2][..1] == [ws[0]];
    assert TotalDistance(g, ws[..2]) == g.Leg(ws[0], ws[1]);
    assert TotalDistance(g, ws) == g.Leg(ws[0], ws[1]) + g.Leg(ws[1], ws[2]);
  }

  /** The route keeps out of every zone. */
  ghost predicate RouteIsFree(g: Geodesy, zones: seq<Zone>) {
    forall z <- zones, w <- SlowFastSlow() :: !InZone(g, w, z)
  }

  lemma SlowRouteIsValid(g: Geodesy, zones: seq<Zone>, p: FlightPlan, active: map<string, FlightPlan>)
    requires g.SquareRoot() && KilometreLegs(g) && RouteIsFree(g, zones)
    requires p.waypoints == SlowFastSlow() && p.emergencyPoints == SlowFastSlow() && ClearOf(g, p, active)
    ensures Verdict(g, zones, p, active) == VALID
  {
    hide TotalDistance, FlightDuration;
    RouteTimes(g);
    RouteLength(g);
    forall w | w in p.waypoints ensures WaypointComfortable(g, p, w) {
      assert g.Between(w, w) == 0.0;
    }
  }

  /** A VALID plan that optimisation turns into a warning: 2 km flown at an average of 10.5 m/s,
      against 1 m/s once the fast middle way point is gone. */
  lemma OptimizedMayWarn(g: Geodesy, zones: seq<Zone>, p: FlightPlan)
    requires g.SquareRoot() && KilometreLegs(g) && RouteIsFree(g, zones)
    requires p.waypoints == SlowFastSlow() && p.emergencyPoints == SlowFastSlow()
    ensures Verdict(g, zones, p, map[]) == VALID
    ensures Verdict(g, zones, OptimizedPlan(p), map[]) == WARNING
  {
    hide FlightDuration, KilometreLegs, SlowFastSlow, Optimized;
    SlowRouteIsValid(g, zones, p, map[]);
    RouteTimes(g);
    OptimizedStaysAcceptable(g, zones, p, map[]);
  }

  // ----- when optimising never slows a flight down

  /** One positive speed throughout, and no negative time for an action. */
  predicate Steady(ws: seq<Waypoint>, speed: real) {
    speed > 0.0 && forall w <- ws :: w.speed == speed && (w.duration.Some? ==> w.duration.value >= 0.0)
  }

  function Per(distance: real, speed: real): real
    requires speed > 0.0
  {
    distance / speed
  }

  lemma PerSum(a: real, b: real, c: real, speed: real)
    requires speed > 0.0 && c <= a + b
    ensures Per(c, speed) <= Per(a, speed) + Per(b, speed)
  {
    var d := a + b - c;
    assert d / speed >= 0.0;
    assert Per(a, speed) + Per(b, speed) == Per(c, speed) + d / speed;
  }

  function ActionTime(w: Waypoint): real {
    if w.duration.Some? then w.duration.value else 0.0
  }

  lemma SteadyLeg(g: Geodesy, a: Waypoint, b: Waypoint, speed: real)
    requires speed > 0.0 && a.speed == speed && b.speed == speed
    ensures LegTime(g, a, b) == Per(g.Between(a, b), speed) + ActionTime(b)
  {
    assert (a.speed + b.speed) / 2.0 == speed;
  }

  /** After `n` way points, the time of the kept part plus that of the leg to the way point just
      passed is no more than the time of the original part. */
  lemma {:induction false} KeptIsNoSlower(g: Geodesy, ws: seq<Waypoint>, n: nat, speed: real)
    requires g.Metric() && Steady(ws, speed) && 0 < n <= |ws|
    ensures KeptUpTo(ws, n) != [] && KeptUpTo(ws, n)[|KeptUpTo(ws, n)| - 1] in ws
    ensures var kept := KeptUpTo(ws, n);
            FlightDuration(g, kept) + Per(g.Between(kept[|kept| - 1], ws[n - 1]), speed) <= FlightDuration(g, ws[..n])
  {
    hide FlightDuration, Droppable, LegTime;
    if n == 1 {
      KeptFirst(g, ws);
    } else {
      KeptIsNoSlower(g, ws, n - 1, speed);
      KeptStepIsNoSlower(g, ws, n, speed);
    }
  }

  lemma KeptFirst(g: Geodesy, ws: seq<Waypoint>)
    requires ws != [] && g.Metric()
    ensures KeptUpTo(ws, 1) == [ws[0]] && g.Between(ws[0], ws[0]) == 0.0
    ensures FlightDuration(g, [ws[0]]) == FlightDuration(g, ws[..1])
  {
    assert KeptUpTo(ws, 0) == [] && ws[..1] == [ws[0]];
  }

  lemma KeptStepIsNoSlower(g: Geodesy, ws: seq<Waypoint>, n: nat, speed: real)
    requires g.Metric() && Steady(ws, speed) && 1 < n <= |ws|
    requires var kept := KeptUpTo(ws, n - 1);
             && kept != [] && kept[|kept| - 1] in ws
             && FlightDuration(g, kept) + Per(g.Between(kept[|kept| - 1], ws[n - 2]), speed)
                <= FlightDuration(g, ws[..n - 1])
    ensures KeptUpTo(ws, n) != [] && KeptUpTo(ws, n)[|KeptUpTo(ws, n)| - 1] in ws
    ensures var kept := KeptUpTo(ws, n);
            FlightDuration(g, kept) + Per(g.Between(kept[|kept| - 1], ws[n - 1]), speed) <= FlightDuration(g, ws[..n])
  {
    hide FlightDuration, Droppable, LegTime, Per;
    var kept := KeptUpTo(ws, n - 1);
    var last, from, to := kept[|kept| - 1], ws[n - 2], ws[n - 1];
    assert ws[..n] == ws[..n - 1] + [to] && ws[..n - 1][|ws[..n - 1]| - 1] == from;
    assert from in ws && to in ws;
    OneMoreWaypoint(g, ws[..n - 1], to);
    SteadyLeg(g, from, to, speed);
    assert g.TriangleAt(last.latitude, last.longitude, from.latitude, from.longitude, to.latitude, to.longitude);
    PerSum(g.Between(last, from), g.Between(from, to), g.Between(last, to), speed);
    if Droppable(ws, n - 1) {
      assert KeptUpTo(ws, n) == kept;
    } else {
      assert KeptUpTo(ws, n) == kept + [to];
      OneMoreWaypoint(g, kept, to);
      SteadyLeg(g, last, to, speed);
      PerNothing(g, to, speed);
    }
  }

  lemma PerNothing(g: Geodesy, w: Waypoint, speed: real)
    requires g.Metric() && speed > 0.0
    ensures Per(g.Between(w, w), speed) == 0.0
  {
  }

  /** Flown steadily, a route never takes longer once way points have been dropped. */
  lemma OptimizedIsNoSlower(g: Geodesy, ws: seq<Waypoint>, speed: real)
    requires g.Metric() && Steady(ws, speed)
    ensures FlightDuration(g, Optimized(ws)) <= FlightDuration(g, ws)
  {
    if ws != [] {
      KeptIsNoSlower(g, ws, |ws|, speed);
      assert ws[..|ws|] == ws;
      OptimizedIsSubsequence(ws);
      PerNothing(g, ws[|ws| - 1], speed);
    }
  }

  /** So a VALID plan flown steadily stays VALID. */
  lemma SteadyPlanStaysValid(g: Geodesy, zones: seq<Zone>, p: FlightPlan, active: map<string, FlightPlan>, speed: real)
    requires g.Metric() && g.SquareRoot() && Steady(p.waypoints, speed)
    requires Verdict(g, zones, p, active) == VALID
    ensures Verdict(g, zones, OptimizedPlan(p), active) == VALID
  {
    hide FlightDuration, Steady, Optimized;
    OptimizedVerdict(g, zones, p, active);
    OptimizedIsNoSlower(g, p.waypoints, speed);
  }
}
