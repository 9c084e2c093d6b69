/** Flight plans and what it means for one to be safe: the specification that the
    planner core's loops are proved against. Every hard limit is a quantified
    statement over way points, none of it an accumulator. */
module FlightPlans {
  import opened Reals
  import opened Wrappers

  datatype Waypoint = Waypoint(
    latitude: real, longitude: real, altitude: real, speed: real,
    action: Option<string>, duration: Option<real>)

  datatype FlightPlan = FlightPlan(
    missionId: string, uasId: string, waypoints: seq<Waypoint>,
    takeoffTime: real, estimatedDuration: real, maxAltitude: real, totalDistance: real,
    emergencyPoints: seq<Waypoint>)

  datatype Zone = Zone(id: string, latitude: real, longitude: real, radius: real)

  datatype ValidationResult = VALID | INVALID | WARNING

  const MAX_ALTITUDE: real := 120.0
  const MIN_ALTITUDE: real := 10.0
  const MAX_SPEED: real := 20.0
  const MAX_RANGE: real := 10000.0
  const MAX_DURATION: real := 1800.0
  const MAX_EMERGENCY_DISTANCE: real := 500.0
  const MIN_SEPARATION: real := 50.0
  const MIN_ALTITUDE_SEPARATION: real := 10.0

  /** The ground distance (haversine in the original) and the square root, both left
      uninterpreted; lemmas state the laws they need. */
  datatype Geodesy = Geodesy(distance: (real, real, real, real) -> real, sqrt: real -> real)
  {
    function Between(a: Waypoint, b: Waypoint): real {
      distance(a.latitude, a.longitude, b.latitude, b.longitude)
    }

    function Slant(horizontal: real, vertical: real): real {
      sqrt(horizontal * horizontal + vertical * vertical)
    }

    /** Length of the straight leg between two way points, climb included. */
    function Leg(a: Waypoint, b: Waypoint): real {
      Slant(Between(a, b), Abs(b.altitude - a.altitude))
    }

    ghost predicate Symmetric() {
      forall a, b, c, d :: distance(a, b, c, d) == distance(c, d, a, b)
    }

    ghost predicate Metric() {
      && (forall a, b, c, d :: distance(a, b, c, d) >= 0.0)
      && (forall a, b :: distance(a, b, a, b) == 0.0)
      && (forall a, b, c, d, e, f :: TriangleAt(a, b, c, d, e, f))
    }

    predicate TriangleAt(a: real, b: real, c: real, d: real, e: real, f: real) {
      distance(a, b, e, f) <= distance(a, b, c, d) + distance(c, d, e, f)
    }

    ghost predicate SquareRoot() {
      forall x :: x >= 0.0 ==> sqrt(x) >= 0.0 && sqrt(x) * sqrt(x) == x
    }
  }

  // ----- hard limits: breaking one of these makes a plan INVALID

  predicate Exempt(w: Waypoint) {
    w.action == Some("takeoff") || w.action == Some("land")
  }

  predicate InZone(g: Geodesy, w: Waypoint, z: Zone) {
    !Exempt(w) && g.distance(w.latitude, w.longitude, z.latitude, z.longitude) < z.radius
  }

  ghost predicate WaypointSafe(g: Geodesy, zones: seq<Zone>, w: Waypoint) {
    w.altitude <= MAX_ALTITUDE && w.speed <= MAX_SPEED && forall z <- zones :: !InZone(g, w, z)
  }

  ghost predicate HardSafe(g: Geodesy, zones: seq<Zone>, p: FlightPlan) {
    && (forall w <- p.waypoints :: WaypointSafe(g, zones, w))
    && p.emergencyPoints != []
  }

  // ----- separation from other plans

  predicate TooClose(g: Geodesy, a: Waypoint, b: Waypoint) {
    g.Between(a, b) < MIN_SEPARATION && Abs(a.altitude - b.altitude) < MIN_ALTITUDE_SEPARATION
  }

  predicate Overlap(p: FlightPlan, q: FlightPlan) {
    !(p.takeoffTime + p.estimatedDuration < q.takeoffTime || p.takeoffTime > q.takeoffTime + q.estimatedDuration)
  }

  /** This moment lies in the plan's time window. */
  predicate Airborne(p: FlightPlan, t: real) {
    p.takeoffTime <= t <= p.takeoffTime + p.estimatedDuration
  }

  /** Plans that share a moment overlap, and where no duration is negative only they do. */
  lemma OverlapMeansSharedMoment(p: FlightPlan, q: FlightPlan)
    ensures (exists t :: Airborne(p, t) && Airborne(q, t)) ==> Overlap(p, q)
    ensures p.estimatedDuration >= 0.0 && q.estimatedDuration >= 0.0 ==>
              (Overlap(p, q) <==> exists t :: Airborne(p, t) && Airborne(q, t))
  {
    if Overlap(p, q) && p.estimatedDuration >= 0.0 && q.estimatedDuration >= 0.0 {
      var later := if p.takeoffTime >= q.takeoffTime then p.takeoffTime else q.takeoffTime;
      assert Airborne(p, later) && Airborne(q, later);
    }
  }

  ghost predicate Separated(g: Geodesy, p: FlightPlan, q: FlightPlan) {
    Overlap(p, q) ==> forall a <- p.waypoints, b <- q.waypoints :: !TooClose(g, a, b)
  }

  ghost predicate ClearOf(g: Geodesy, p: FlightPlan, active: map<string, FlightPlan>) {
    forall id <- active :: id != p.missionId ==> Separated(g, p, active[id])
  }

  // ----- soft limits: breaking one of these only warns

  function TotalDistance(g: Geodesy, ws: seq<Waypoint>): real {
    if |ws| < 2 then 0.0
    else TotalDistance(g, ws[..|ws| - 1]) + g.Leg(ws[|ws| - 2], ws[|ws| - 1])
  }

  /** Time of the leg from `a` to `b` plus the time spent on the action at `b`. */
  function LegTime(g: Geodesy, a: Waypoint, b: Waypoint): real {
    var speed := (a.speed + b.speed) / 2.0;
    (if speed > 0.0 then g.Between(a, b) / speed else 0.0)
    + (if b.duration.Some? then b.duration.value else 0.0)
  }

  function FlightDuration(g: Geodesy, ws: seq<Waypoint>): real {
    if |ws| < 2 then 0.0
    else FlightDuration(g, ws[..|ws| - 1]) + LegTime(g, ws[|ws| - 2], ws[|ws| - 1])
  }

  predicate TooLow(w: Waypoint) {
    0.0 < w.altitude < MIN_ALTITUDE
  }

  ghost predicate FarFromEmergency(g: Geodesy, w: Waypoint, es: seq<Waypoint>) {
    forall e <- es :: g.Between(w, e) > MAX_EMERGENCY_DISTANCE
  }

  ghost predicate WaypointComfortable(g: Geodesy, p: FlightPlan, w: Waypoint) {
    !TooLow(w) && !FarFromEmergency(g, w, p.emergencyPoints)
  }

  ghost predicate Comfortable(g: Geodesy, p: FlightPlan) {
    && (forall w <- p.waypoints :: WaypointComfortable(g, p, w))
    && TotalDistance(g, p.waypoints) <= MAX_RANGE
    && FlightDuration(g, p.waypoints) <= MAX_DURATION
  }

  /** What validation should answer, stated without reference to how issues are collected. */
  ghost function Verdict(g: Geodesy, zones: seq<Zone>, p: FlightPlan, active: map<string, FlightPlan>)
    : ValidationResult
  {
    if !HardSafe(g, zones, p) || !ClearOf(g, p, active) then INVALID
    else if !Comfortable(g, p) then WARNING
    else VALID
  }

  /** The hard limits and the rule of separation in numbers. */
  lemma InvalidMeans(g: Geodesy, zones: seq<Zone>, p: FlightPlan, active: map<string, FlightPlan>)
    ensures Verdict(g, zones, p, active) == INVALID
       <==> || p.emergencyPoints == []
            || (exists w <- p.waypoints ::
                  || w.altitude > 120.0
                  || w.speed > 20.0
                  || (w.action != Some("takeoff") && w.action != Some("land")
                      && exists z <- zones :: g.distance(w.latitude, w.longitude, z.latitude, z.longitude) < z.radius))
            || (exists id <- active :: id != p.missionId && Overlap(p, active[id])
                  && exists a <- p.waypoints, b <- active[id].waypoints ::
                       g.distance(a.latitude, a.longitude, b.latitude, b.longitude) < 50.0
                       && -10.0 < a.altitude - b.altitude < 10.0)
  {
  }

  /** The soft limits in numbers. */
  lemma ValidMeans(g: Geodesy, zones: seq<Zone>, p: FlightPlan, active: map<string, FlightPlan>)
    ensures Verdict(g, zones, p, active) == VALID
       <==> && Verdict(g, zones, p, active) != INVALID
            && (forall w <- p.waypoints :: !(0.0 < w.altitude < 10.0) && exists e <- p.emergencyPoints ::
                  g.distance(w.latitude, w.longitude, e.latitude, e.longitude) <= 500.0)
            && TotalDistance(g, p.waypoints) <= 10000.0
            && FlightDuration(g, p.waypoints) <= 1800.0
  {
    hide TotalDistance, FlightDuration, HardSafe, ClearOf;
  }

  /** The length of a route of one leg: the hypotenuse of ground distance and climb. */
  lemma OneLegLength(g: Geodesy, a: Waypoint, b: Waypoint, d: real, climb: real)
    requires d == g.distance(a.latitude, a.longitude, b.latitude, b.longitude) && climb == b.altitude - a.altitude
    ensures TotalDistance(g, [a]) == 0.0
    ensures TotalDistance(g, [a, b]) == g.sqrt(d * d + climb * climb)
  {
    assert [a, b][..1] == [a];
    AbsSquare(climb);
    SlantOfClimb(g, d, Abs(climb), climb);
  }

  lemma SlantOfClimb(g: Geodesy, d: real, v: real, climb: real)
    requires v * v == climb * climb
    ensures g.Slant(d, v) == g.sqrt(d * d + climb * climb)
  {
    assert d * d + v * v == d * d + climb * climb;
  }

  /** Its time: the ground distance at the mean of the two speeds, and the pause at its end. */
  lemma OneLegTime(g: Geodesy, a: Waypoint, b: Waypoint)
    ensures FlightDuration(g, [a]) == 0.0
    ensures var d := g.distance(a.latitude, a.longitude, b.latitude, b.longitude);
            var pause := if b.duration.Some? then b.duration.value else 0.0;
            && (a.speed + b.speed > 0.0 ==> (FlightDuration(g, [a, b]) - pause) * (a.speed + b.speed) == 2.0 * d)
            && (a.speed + b.speed <= 0.0 ==> FlightDuration(g, [a, b]) == pause)
  {
    assert [a, b][..1] == [a];
    var d := g.distance(a.latitude, a.longitude, b.latitude, b.longitude);
    var pause := if b.duration.Some? then b.duration.value else 0.0;
    if a.speed + b.speed > 0.0 {
      MeanSpeed(d, a.speed + b.speed);
      assert FlightDuration(g, [a, b]) - pause == d / ((a.speed + b.speed) / 2.0);
    }
  }

  lemma MeanSpeed(d: real, sum: real)
    requires sum > 0.0
    ensures d / (sum / 2.0) * sum == 2.0 * d
  {
    assert d / (sum / 2.0) * (sum / 2.0) == d;
  }

  lemma AbsSquare(x: real)
    ensures Abs(x) * Abs(x) == x * x
  {
  }

  /** Lengths and times add up where a route is cut at one of its way points. */
  lemma {:induction false} RouteSplits(g: Geodesy, xs: seq<Waypoint>, m: Waypoint, ys: seq<Waypoint>)
    ensures TotalDistance(g, xs + [m] + ys) == TotalDistance(g, xs + [m]) + TotalDistance(g, [m] + ys)
    ensures FlightDuration(g, xs + [m] + ys) == FlightDuration(g, xs + [m]) + FlightDuration(g, [m] + ys)
  {
    if ys == [] {
      assert xs + [m] + ys == xs + [m] && [m] + ys == [m];
    } else {
      var n := |ys| - 1;
      RouteSplits(g, xs, m, ys[..n]);
      var before, tail := xs + [m] + ys[..n], [m] + ys[..n];
      assert xs + [m] + ys == before + [ys[n]] && [m] + ys == tail + [ys[n]];
      assert before[|before| - 1] == tail[|tail| - 1];
      hide TotalDistance, FlightDuration, LegTime;
      OneMoreWaypoint(g, before, ys[n]);
      OneMoreWaypoint(g, tail, ys[n]);
    }
  }

  lemma OneMoreWaypoint(g: Geodesy, ws: seq<Waypoint>, w: Waypoint)
    requires ws != []
    ensures TotalDistance(g, ws + [w]) == TotalDistance(g, ws) + g.Leg(ws[|ws| - 1], w)
    ensures FlightDuration(g, ws + [w]) == FlightDuration(g, ws) + LegTime(g, ws[|ws| - 1], w)
  {
    assert (ws + [w])[..|ws|] == ws;
  }

  function MaxAltitude(ws: seq<Waypoint>): (m: real)
    requires ws != []
    ensures forall w <- ws :: w.altitude <= m
    ensures exists w <- ws :: w.altitude == m
  {
    if |ws| == 1 then ws[0].altitude
    else
      var rest := MaxAltitude(ws[1..]);
      if ws[0].altitude > rest then ws[0].altitude else rest
  }
}
