/** The full patrol path: a straight leg from the port to the rectangle, the sweep, and a
    straight leg home. */
module WplPaths {
  import opened Reals
  import opened Wrappers
  import Strings
  import opened WplPoints
  import opened WplSweeps
  import opened WplTexts

  const PI: real := 3.141592653589793
  const EARTH_RADIUS: real := 6371000.0

  /** The cosine is left uninterpreted; only its range on [-90, 90] degrees is used. */
  type Cosine = real -> real

  ghost predicate CosineRange(cos: Cosine) {
    forall x :: -PI / 2.0 <= x <= PI / 2.0 ==> 0.0 <= cos(x) <= 1.0
  }

  function Times(a: real, k: real): real {
    a * k
  }

  function Over(a: real, k: real): real
    requires k != 0.0
  {
    a / k
  }

  function DegToRad(d: real): real {
    d * PI / 180.0
  }

  function RadToDeg(r: real): real {
    r * 180.0 / PI
  }

  /** Metres per radian of longitude at a latitude. */
  function ParallelRadius(cos: Cosine, lat0: real): real {
    cos(DegToRad(lat0)) * EARTH_RADIUS
  }

  /** Degrees to metres east and north of (lat0, lon0). */
  function ToLocal(cos: Cosine, lat: real, lon: real, lat0: real, lon0: real): (real, real) {
    (Times(DegToRad(lon) - DegToRad(lon0), ParallelRadius(cos, lat0)), (DegToRad(lat) - DegToRad(lat0)) * EARTH_RADIUS)
  }

  /** A degree of latitude is a 360th of the circumference of a sphere of 6371 km, a degree of longitude
      as much times the cosine of the latitude. */
  lemma MetresPerDegree(cos: Cosine, lat: real, lon: real, lat0: real, lon0: real)
    ensures var (east, north), scale := ToLocal(cos, lat, lon, lat0, lon0), 3.141592653589793 * 6371000.0;
            && north * 180.0 == (lat - lat0) * scale
            && east * 180.0 == Times(lon - lon0, cos(lat0 * 3.141592653589793 / 180.0) * scale)
  {
    var k := cos(DegToRad(lat0));
    assert DegToRad(lon) - DegToRad(lon0) == (lon - lon0) * PI / 180.0;
    Rescaled(lon - lon0, k);
  }

  lemma Rescaled(d: real, k: real)
    ensures Times(d * PI / 180.0, k * EARTH_RADIUS) * 180.0 == Times(d, k * (PI * EARTH_RADIUS))
  {
    assert Times(d * PI / 180.0, k * EARTH_RADIUS) * 180.0 == (d * PI) * (k * EARTH_RADIUS);
  }

  /** Metres back to degrees. */
  function FromLocal(cos: Cosine, x: real, y: real, lat0: real, lon0: real): (real, real)
    requires ParallelRadius(cos, lat0) != 0.0
  {
    (RadToDeg(DegToRad(lat0) + y / EARTH_RADIUS), RadToDeg(DegToRad(lon0) + Over(x, ParallelRadius(cos, lat0))))
  }

  lemma OverUndoesTimes(a: real, k: real)
    requires k != 0.0
    ensures Over(Times(a, k), k) == a
  {
  }

  lemma DegRad(d: real)
    ensures RadToDeg(DegToRad(d)) == d
  {
  }

  /** The two conversions are inverse. */
  lemma LocalRoundTrip(cos: Cosine, lat: real, lon: real, lat0: real, lon0: real)
    requires ParallelRadius(cos, lat0) != 0.0
    ensures var p := ToLocal(cos, lat, lon, lat0, lon0);
            FromLocal(cos, p.0, p.1, lat0, lon0) == (lat, lon)
  {
    OverUndoesTimes(DegToRad(lon) - DegToRad(lon0), ParallelRadius(cos, lat0));
    DegRad(lon);
    DegRad(lat);
  }

  /** And back: no two places of the rectangle have the same coordinates. */
  lemma DegreesRoundTrip(cos: Cosine, x: real, y: real, lat0: real, lon0: real)
    requires ParallelRadius(cos, lat0) != 0.0
    ensures var p := FromLocal(cos, x, y, lat0, lon0);
            ToLocal(cos, p.0, p.1, lat0, lon0) == (x, y)
  {
    hide DegToRad, RadToDeg;
    RadDeg(DegToRad(lat0) + y / EARTH_RADIUS);
    RadDeg(DegToRad(lon0) + Over(x, ParallelRadius(cos, lat0)));
    TimesUndoesOver(x, ParallelRadius(cos, lat0));
  }

  lemma TimesUndoesOver(a: real, k: real)
    requires k != 0.0
    ensures Times(Over(a, k), k) == a
  {
  }

  lemma RadDeg(r: real)
    ensures DegToRad(RadToDeg(r)) == r
  {
  }

  lemma TimesStrict(x: real, y: real, k: real)
    requires x > y && k > 0.0
    ensures x * k > y * k
  {
    assert (x - y) * k > 0.0;
  }

  lemma OverMonotone(a: real, b: real, k: real)
    requires a <= b && k > 0.0
    ensures Over(a, k) <= Over(b, k)
    ensures Over(0.0, k) == 0.0 && Over(k, k) == 1.0
  {
    var x, y := Over(a, k), Over(b, k);
    assert x * k == a && y * k == b;
    if x > y {
      TimesStrict(x, y, k);
    }
  }

  /** Every point of the rectangle lies between the corners in latitude and longitude. */
  lemma RectangleBetween(cos: Cosine, x: real, y: real, a: Point, b: Point)
    requires ParallelRadius(cos, a.lat) > 0.0
    requires var far := ToLocal(cos, b.lat, b.lon, a.lat, a.lon);
             0.0 <= x <= far.0 && 0.0 <= y <= far.1
    ensures var p := FromLocal(cos, x, y, a.lat, a.lon);
            a.lat <= p.0 <= b.lat && a.lon <= p.1 <= b.lon
  {
    var k := ParallelRadius(cos, a.lat);
    var far := ToLocal(cos, b.lat, b.lon, a.lat, a.lon);
    LocalRoundTrip(cos, b.lat, b.lon, a.lat, a.lon);
    OverMonotone(0.0, x, k);
    OverMonotone(x, far.0, k);
    DegRad(a.lat);
    DegRad(a.lon);
  }

  // ----- straight legs

  function Lerp(a: real, b: real, t: real): real {
    a + Times(b - a, t)
  }

  function LerpPoint(a: Point, b: Point, t: real): Point {
    Point(Lerp(a.lat, b.lat, t), Lerp(a.lon, b.lon, t), Lerp(a.altM, b.altM, t))
  }

  /** Interpolation is convex: it stays between its ends and meets both of them. */
  lemma LerpBetween(a: real, b: real, t: real)
    requires 0.0 <= t <= 1.0
    ensures a <= b ==> a <= Lerp(a, b, t) <= b
    ensures b <= a ==> b <= Lerp(a, b, t) <= a
    ensures Lerp(a, b, 0.0) == a && Lerp(a, b, 1.0) == b
  {
    hide Lerp;
    if a <= b {
      LerpUp(a, b, t);
    }
    if b <= a {
      LerpDown(a, b, t);
    }
    LerpEnds(a, b);
  }

  lemma LerpUp(a: real, b: real, t: real)
    requires a <= b && 0.0 <= t <= 1.0
    ensures a <= Lerp(a, b, t) <= b
  {
    hide Times;
    TimesShare(b - a, t);
  }

  lemma LerpDown(a: real, b: real, t: real)
    requires b <= a && 0.0 <= t <= 1.0
    ensures b <= Lerp(a, b, t) <= a
  {
    hide Times;
    TimesShare(a - b, t);
    TimesNegated(a - b, t);
    assert b - a == -(a - b);
  }

  lemma TimesShare(d: real, t: real)
    requires d >= 0.0 && 0.0 <= t <= 1.0
    ensures 0.0 <= Times(d, t) <= d
  {
    ShareOf(d, t);
  }

  lemma TimesNegated(d: real, t: real)
    ensures Times(-d, t) == -Times(d, t)
  {
  }

  lemma LerpEnds(a: real, b: real)
    ensures Lerp(a, b, 0.0) == a && Lerp(a, b, 1.0) == b
  {
  }

  lemma LerpInRange(a: Point, b: Point, t: real)
    requires InRange(a) && InRange(b) && 0.0 <= t <= 1.0
    ensures InRange(LerpPoint(a, b, t))
  {
    LerpBetween(a.lat, b.lat, t);
    LerpBetween(a.lon, b.lon, t);
    LerpBetween(a.altM, b.altM, t);
  }

  function Ratio(i: int, n: int): real
    requires n != 0
  {
    Over(i as real, n as real)
  }

  lemma RatioInUnit(i: nat, n: nat)
    requires 0 < n && i <= n
    ensures 0.0 <= Ratio(i, n) <= 1.0 && Ratio(0, n) == 0.0 && Ratio(n, n) == 1.0
  {
    OverMonotone(0.0, i as real, n as real);
    OverMonotone(i as real, n as real, n as real);
  }

  /** The i-th of n + 1 evenly spaced values from a to b. */
  predicate Even(x: real, a: real, b: real, i: nat, n: nat) {
    x * n as real == a * (n - i) as real + b * i as real
  }

  lemma LerpIsEven(a: real, b: real, i: nat, n: nat)
    requires 0 < n
    ensures Even(Lerp(a, b, Ratio(i, n)), a, b, i, n)
  {
    var t := Ratio(i, n);
    assert t * n as real == i as real;
    assert Lerp(a, b, t) * n as real == a * n as real + (b - a) * (t * n as real);
    assert (n - i) as real == n as real - i as real;
  }

  ghost function Line(a: Point, b: Point, segments: nat): seq<Point>
    requires segments > 0
  {
    seq(segments + 1, i requires 0 <= i <= segments => LerpPoint(a, b, Ratio(i, segments)))
  }

  /** These are the points that divide the way from a to b into equal parts. */
  ghost predicate Divides(points: seq<Point>, a: Point, b: Point, segments: nat) {
    && |points| == segments + 1
    && forall i :: 0 <= i <= segments ==>
         && Even(points[i].lat, a.lat, b.lat, i, segments)
         && Even(points[i].lon, a.lon, b.lon, i, segments)
         && Even(points[i].altM, a.altM, b.altM, i, segments)
  }

  lemma LineDivides(a: Point, b: Point, segments: nat)
    requires segments > 0
    ensures Divides(Line(a, b, segments), a, b, segments)
  {
    hide Lerp, Ratio, Even;
    forall i: nat | i <= segments
      ensures var p := Line(a, b, segments)[i];
              && Even(p.lat, a.lat, b.lat, i, segments)
              && Even(p.lon, a.lon, b.lon, i, segments)
              && Even(p.altM, a.altM, b.altM, i, segments)
    {
      LerpIsEven(a.lat, b.lat, i, segments);
      LerpIsEven(a.lon, b.lon, i, segments);
      LerpIsEven(a.altM, b.altM, i, segments);
    }
  }

  method InterpolateLine(a: Point, b: Point, segments: nat) returns (out: seq<Point>)
    requires segments > 0
    ensures out == Line(a, b, segments)
    ensures Divides(out, a, b, segments)
  {
    out := [];
    for i := 0 to segments + 1
      invariant |out| == i && forall k :: 0 <= k < i ==> out[k] == LerpPoint(a, b, Ratio(k, segments))
    {
      out := out + [LerpPoint(a, b, Ratio(i, segments))];
    }
    LineDivides(a, b, segments);
  }

  lemma LineEnds(a: Point, b: Point, segments: nat)
    requires segments > 0
    ensures Line(a, b, segments)[0] == a && Line(a, b, segments)[segments] == b
    ensures InRange(a) && InRange(b) ==> forall p <- Line(a, b, segments) :: InRange(p)
  {
    RatioInUnit(0, segments);
    LerpBetween(a.lat, b.lat, 0.0);
    LerpBetween(a.lon, b.lon, 0.0);
    LerpBetween(a.altM, b.altM, 0.0);
    if InRange(a) && InRange(b) {
      forall i: nat | i <= segments ensures InRange(Line(a, b, segments)[i]) {
        RatioInUnit(i, segments);
        LerpInRange(a, b, Ratio(i, segments));
      }
    }
  }

  /** A leg stands still exactly when its ends are the same point. */
  lemma LineMoves(a: Point, b: Point, segments: nat, i: nat)
    requires i < segments
    ensures Line(a, b, segments)[i] == Line(a, b, segments)[i + 1] <==> a == b
  {
    LerpMoves(a.lat, b.lat, segments, i);
    LerpMoves(a.lon, b.lon, segments, i);
    LerpMoves(a.altM, b.altM, segments, i);
  }

  lemma LerpMoves(a: real, b: real, n: nat, i: nat)
    requires i < n
    ensures Lerp(a, b, Ratio(i, n)) == Lerp(a, b, Ratio(i + 1, n)) <==> a == b
  {
    var s, t := Ratio(i, n), Ratio(i + 1, n);
    RatioGrows(i, n);
    assert Times(b - a, t) - Times(b - a, s) == Times(b - a, t - s);
  }

  lemma RatioGrows(i: nat, n: nat)
    requires i < n
    ensures Ratio(i, n) < Ratio(i + 1, n)
  {
  }

  // ----- the whole path

  /** The rectangle from corner `b` (bottom left) to corner `c` (top right), in metres. */
  function Rectangle(cos: Cosine, b: Point, c: Point, nx: nat, ny: nat): Grid {
    var far := ToLocal(cos, c.lat, c.lon, b.lat, b.lon);
    Grid(far.0, far.1, nx, ny)
  }

  /** The sweep in degrees; the ends are pinned to the corners, the altitude rises evenly. */
  ghost function Snake(cos: Cosine, b: Point, c: Point, nodes: seq<(real, real)>): seq<Point>
    requires ParallelRadius(cos, b.lat) != 0.0 && |nodes| >= 2
  {
    seq(|nodes|, k requires 0 <= k < |nodes| =>
      if k == 0 then b
      else if k == |nodes| - 1 then c
      else
        var p := FromLocal(cos, nodes[k].0, nodes[k].1, b.lat, b.lon);
        Point(p.0, p.1, Lerp(b.altM, c.altM, Ratio(k, |nodes| - 1))))
  }

  ghost function Patrol(cos: Cosine, a: Point, b: Point, c: Point, segments: nat, nodes: seq<(real, real)>): seq<Point>
    requires ParallelRadius(cos, b.lat) != 0.0 && |nodes| >= 2 && segments > 0
  {
    Line(a, b, segments) + Snake(cos, b, c, nodes)[1..] + Line(c, a, segments)[1..]
  }

  datatype PathError = NotThreePoints | BadSegments | BadCorner(index: nat, why: PointError) | NotNorthEast | TooShort

  ghost predicate AcceptedInput(cos: Cosine, points: seq<RawPoint>, segments: int, nx: int, ny: int) {
    && |points| == 3 && segments > 0 && nx > 0 && ny > 0
    && (forall i :: 0 <= i < 3 ==> HasCoordinates(points[i]))
    && var g := Rectangle(cos, Coordinates(points[1]), Coordinates(points[2]), nx, ny);
    && g.Valid()
    && (g.width >= 0.000001 || g.height >= 0.000001)
  }

  lemma EastMeansCosinePositive(cos: Cosine, b: Point, c: Point)
    requires CosineRange(cos) && InRange(b)
    requires ToLocal(cos, c.lat, c.lon, b.lat, b.lon).0 > 0.0
    ensures ParallelRadius(cos, b.lat) > 0.0
  {
    var k := cos(DegToRad(b.lat));
    assert -PI / 2.0 <= DegToRad(b.lat) <= PI / 2.0;
    assert k >= 0.0;
    assert k != 0.0 by {
      assert Times(DegToRad(c.lon) - DegToRad(b.lon), 0.0) == 0.0;
    }
  }

  /** The generator accepts exactly the inputs above, and what it returns is the patrol along a
      sweep of the rectangle. The range check inside its loop never fires. */
  lemma SweepIsShortOnlyWhenTiny(g: Grid, nodes: seq<(real, real)>)
    requires g.Valid() && IsSweep(g, nodes)
    ensures |nodes| < 2 <==> g.width < STOP_TOLERANCE && g.height < STOP_TOLERANCE
  {
  }

  /** The straight way from port to corner, the sweep, and the straight way home. The altitude rises
      evenly along the sweep, whose points lie at the places of these nodes and end in the corner. */
  ghost predicate IsPatrol(cos: Cosine, a: Point, b: Point, c: Point, segments: nat, nodes: seq<(real, real)>,
                           path: seq<Point>)
    requires segments > 0
  {
    && |path| == 2 * segments + |nodes| && |nodes| >= 2
    && Divides(path[..segments + 1], a, b, segments)
    && Divides(path[segments + |nodes| - 1..], c, a, segments)
    && Sweeps(cos, b, c, nodes, path[segments..segments + |nodes|])
  }

  /** These points lead from corner to corner over the places of the nodes, rising evenly. */
  ghost predicate Sweeps(cos: Cosine, b: Point, c: Point, nodes: seq<(real, real)>, points: seq<Point>) {
    && |points| == |nodes| >= 2 && points[0] == b && points[|nodes| - 1] == c
    && (forall k :: 0 <= k < |nodes| ==> Even(points[k].altM, b.altM, c.altM, k, |nodes| - 1))
    && (forall k :: 0 <= k < |nodes| - 1 ==> ToLocal(cos, points[k].lat, points[k].lon, b.lat, b.lon) == nodes[k])
  }

  method ExpandThreePoints(cos: Cosine, points: seq<RawPoint>, segments: int, nx: int, ny: int)
    returns (r: Result<seq<Point>, PathError>, ghost nodes: seq<(real, real)>)
    requires CosineRange(cos)
    ensures r.Ok? <==> AcceptedInput(cos, points, segments, nx, ny)
    ensures r.Ok? ==>
      var a, b, c := Coordinates(points[0]), Coordinates(points[1]), Coordinates(points[2]);
      && ParallelRadius(cos, b.lat) > 0.0
      && IsSweep(Rectangle(cos, b, c, nx, ny), nodes) && |nodes| >= 2
      && r.value == Patrol(cos, a, b, c, segments, nodes)
      && IsPatrol(cos, a, b, c, segments, nodes, r.value)
  {
    hide IsSweep, ToLocal, ParallelRadius, IsPatrol;
    nodes := [];
    if |points| != 3 {
      return Err(NotThreePoints), nodes;
    }
    if segments <= 0 || nx <= 0 || ny <= 0 {
      return Err(BadSegments), nodes;
    }
    var p1, p2, p3 := ReadPoint(points[0]), ReadPoint(points[1]), ReadPoint(points[2]);
    if p1.Err? { return Err(BadCorner(0, p1.error)), nodes; }
    if p2.Err? { return Err(BadCorner(1, p2.error)), nodes; }
    if p3.Err? { return Err(BadCorner(2, p3.error)), nodes; }
    var a, b, c := p1.value, p2.value, p3.value;
    var g := Rectangle(cos, b, c, nx, ny);
    if g.width <= 0.0 || g.height <= 0.0 {
      return Err(NotNorthEast), nodes;
    }
    EastMeansCosinePositive(cos, b, c);
    var leg12 := InterpolateLine(a, b, segments);
    var snakeXy := Sweep(g);
    nodes := snakeXy;
    SweepIsShortOnlyWhenTiny(g, snakeXy);
    if |snakeXy| < 2 {
      return Err(TooShort), nodes;
    }
    var snake := SweepToPoints(cos, b, c, g, snakeXy);
    var leg31 := InterpolateLine(c, a, segments);
    r := Ok(leg12 + snake[1..] + leg31[1..]);
    PatrolIsPatrol(cos, a, b, c, segments, g, snakeXy);
  }

  /** The conversion loop. Its range check is an assertion here: it cannot fail. */
  method SweepToPoints(cos: Cosine, b: Point, c: Point, g: Grid, xy: seq<(real, real)>) returns (snake: seq<Point>)
    requires InRange(b) && InRange(c) && ParallelRadius(cos, b.lat) > 0.0
    requires g == Rectangle(cos, b, c, g.nx, g.ny) && g.Valid() && IsSweep(g, xy) && |xy| >= 2
    ensures snake == Snake(cos, b, c, xy)
  {
    var nodes := xy[0 := (0.0, 0.0)];
    nodes := nodes[|nodes| - 1 := (g.width, g.height)];
    snake := [];
    for n := 0 to |nodes|
      invariant |snake| == n
      invariant forall k :: 0 < k < n && k < |nodes| - 1 ==> snake[k] == Snake(cos, b, c, xy)[k]
    {
      var alt := Lerp(b.altM, c.altM, Ratio(n, |nodes| - 1));
      var p := FromLocal(cos, nodes[n].0, nodes[n].1, b.lat, b.lon);
      assert LatLonInRange(p.0, p.1) by {
        assert g.Inside(nodes[n]) by { assert n == 0 || n == |nodes| - 1 || nodes[n] == xy[n]; }
        RectangleBetween(cos, nodes[n].0, nodes[n].1, b, c);
      }
      snake := snake + [Point(p.0, p.1, alt)];
    }
    snake := snake[0 := b];
    snake := snake[|snake| - 1 := c];
    assert snake == Snake(cos, b, c, xy);
  }

  lemma SnakeInRange(cos: Cosine, b: Point, c: Point, g: Grid, nodes: seq<(real, real)>)
    requires InRange(b) && InRange(c) && ParallelRadius(cos, b.lat) > 0.0
    requires g == Rectangle(cos, b, c, g.nx, g.ny) && g.Valid() && IsSweep(g, nodes) && |nodes| >= 2
    ensures forall p <- Snake(cos, b, c, nodes) :: InRange(p)
  {
    forall k | 0 <= k < |nodes| ensures InRange(Snake(cos, b, c, nodes)[k]) {
      if 0 < k < |nodes| - 1 {
        assert nodes[k] in nodes;
        RectangleBetween(cos, nodes[k].0, nodes[k].1, b, c);
        RatioInUnit(k, |nodes| - 1);
        LerpBetween(b.altM, c.altM, Ratio(k, |nodes| - 1));
      }
    }
  }

  /** The place in metres of the k-th point of the sweep, its last one pinned to the far corner. */
  function Spot(g: Grid, nodes: seq<(real, real)>, k: nat): (real, real)
    requires k < |nodes|
  {
    if k == |nodes| - 1 then (g.width, g.height) else nodes[k]
  }

  lemma SnakeAtSpot(cos: Cosine, b: Point, c: Point, g: Grid, nodes: seq<(real, real)>, k: nat)
    requires ParallelRadius(cos, b.lat) > 0.0
    requires g == Rectangle(cos, b, c, g.nx, g.ny) && g.Valid() && IsSweep(g, nodes) && |nodes| >= 2 && k < |nodes|
    ensures var p := Snake(cos, b, c, nodes)[k];
            ToLocal(cos, p.lat, p.lon, b.lat, b.lon) == Spot(g, nodes, k)
  {
    hide Times, DegToRad, ParallelRadius;
    if k == 0 {
      assert nodes[0] == (0.0, 0.0);
      TimesZero(ParallelRadius(cos, b.lat));
    } else if k < |nodes| - 1 {
      DegreesRoundTrip(cos, nodes[k].0, nodes[k].1, b.lat, b.lon);
    }
  }

  lemma TimesZero(k: real)
    ensures Times(0.0, k) == 0.0
  {
  }

  lemma SpotsDiffer(g: Grid, nodes: seq<(real, real)>, k: nat)
    requires g.Valid() && IsSweep(g, nodes) && k + 1 < |nodes|
    ensures Spot(g, nodes, k) != Spot(g, nodes, k + 1)
  {
    assert g.Stops((g.width, g.height));
    assert !g.Stops(nodes[k]);
    if k + 1 < |nodes| - 1 {
      assert !Same(nodes[k], nodes[k + 1]);
    }
  }

  /** The sweep in degrees never stands still. */
  lemma SnakeMoves(cos: Cosine, b: Point, c: Point, g: Grid, nodes: seq<(real, real)>, k: nat)
    requires ParallelRadius(cos, b.lat) > 0.0
    requires g == Rectangle(cos, b, c, g.nx, g.ny) && g.Valid() && IsSweep(g, nodes) && k + 1 < |nodes|
    ensures Snake(cos, b, c, nodes)[k] != Snake(cos, b, c, nodes)[k + 1]
  {
    SnakeAtSpot(cos, b, c, g, nodes, k);
    SnakeAtSpot(cos, b, c, g, nodes, k + 1);
    SpotsDiffer(g, nodes, k);
  }

  lemma EvenEnds(a: real, b: real, n: nat)
    ensures Even(a, a, b, 0, n) && Even(b, a, b, n, n)
  {
  }

  lemma SnakeClimbsEvenly(cos: Cosine, b: Point, c: Point, nodes: seq<(real, real)>, k: nat)
    requires ParallelRadius(cos, b.lat) != 0.0 && |nodes| >= 2 && k < |nodes|
    ensures Even(Snake(cos, b, c, nodes)[k].altM, b.altM, c.altM, k, |nodes| - 1)
  {
    hide FromLocal, Ratio, Lerp, Even;
    if k == 0 || k == |nodes| - 1 {
      EvenEnds(b.altM, c.altM, |nodes| - 1);
    } else {
      LerpIsEven(b.altM, c.altM, k, |nodes| - 1);
    }
  }

  lemma PatrolIsPatrol(cos: Cosine, a: Point, b: Point, c: Point, segments: nat, g: Grid, nodes: seq<(real, real)>)
    requires ParallelRadius(cos, b.lat) > 0.0 && segments > 0
    requires g == Rectangle(cos, b, c, g.nx, g.ny) && g.Valid() && IsSweep(g, nodes) && |nodes| >= 2
    ensures IsPatrol(cos, a, b, c, segments, nodes, Patrol(cos, a, b, c, segments, nodes))
  {
    hide IsSweep, Rectangle, ParallelRadius, LerpPoint, Even, Divides, Sweeps;
    var path := Patrol(cos, a, b, c, segments, nodes);
    LineEnds(a, b, segments);
    LineEnds(c, a, segments);
    LineDivides(a, b, segments);
    LineDivides(c, a, segments);
    SnakeSweeps(cos, b, c, g, nodes);
    assert path[..segments + 1] == Line(a, b, segments);
    assert path[segments + |nodes| - 1..] == Line(c, a, segments);
    assert path[segments..segments + |nodes|] == Snake(cos, b, c, nodes);
  }

  lemma SnakeSweeps(cos: Cosine, b: Point, c: Point, g: Grid, nodes: seq<(real, real)>)
    requires ParallelRadius(cos, b.lat) > 0.0
    requires g == Rectangle(cos, b, c, g.nx, g.ny) && g.Valid() && IsSweep(g, nodes) && |nodes| >= 2
    ensures Sweeps(cos, b, c, nodes, Snake(cos, b, c, nodes))
  {
    hide IsSweep, Rectangle, ParallelRadius, ToLocal, Even;
    var snake := Snake(cos, b, c, nodes);
    forall k | 0 <= k < |nodes|
      ensures Even(snake[k].altM, b.altM, c.altM, k, |nodes| - 1)
      ensures ToLocal(cos, snake[k].lat, snake[k].lon, b.lat, b.lon) == Spot(g, nodes, k)
    {
      SnakeClimbsEvenly(cos, b, c, nodes, k);
      SnakeAtSpot(cos, b, c, g, nodes, k);
    }
  }

  lemma PatrolMoves(cos: Cosine, a: Point, b: Point, c: Point, segments: nat, g: Grid, nodes: seq<(real, real)>, k: nat)
    requires ParallelRadius(cos, b.lat) > 0.0 && segments > 0
    requires g == Rectangle(cos, b, c, g.nx, g.ny) && g.Valid() && IsSweep(g, nodes) && |nodes| >= 2
    requires k < 2 * segments + |nodes| - 1
    ensures var path := Patrol(cos, a, b, c, segments, nodes);
            && |path| == 2 * segments + |nodes|
            && (path[k] == path[k + 1] <==>
                  (k < segments && a == b) || (segments + |nodes| - 1 <= k && a == c))
  {
    hide IsSweep, Rectangle, ParallelRadius, LerpPoint;
    LineEnds(a, b, segments);
    LineEnds(c, a, segments);
    var l := segments + |nodes| - 1;
    if k < segments {
      LineMoves(a, b, segments, k);
    } else if k < l {
      SnakeMoves(cos, b, c, g, nodes, k - segments);
    } else {
      LineMoves(c, a, segments, k - l);
    }
  }

  lemma PatrolNeighbours(cos: Cosine, a: Point, b: Point, c: Point, segments: nat, g: Grid, nodes: seq<(real, real)>)
    requires ParallelRadius(cos, b.lat) > 0.0 && segments > 0
    requires g == Rectangle(cos, b, c, g.nx, g.ny) && g.Valid() && IsSweep(g, nodes) && |nodes| >= 2
    ensures var path := Patrol(cos, a, b, c, segments, nodes);
            && |path| == 2 * segments + |nodes|
            && path[segments] != path[segments + 1]
            && path[segments + |nodes| - 2] != path[segments + |nodes| - 1]
            && ((forall k :: 0 <= k < |path| - 1 ==> path[k] != path[k + 1]) <==> a != b && a != c)
  {
    hide ParallelRadius, Rectangle, IsSweep;
    forall k: nat | k < 2 * segments + |nodes| - 1
      ensures var path := Patrol(cos, a, b, c, segments, nodes);
              |path| == 2 * segments + |nodes|
              && (path[k] == path[k + 1] <==>
                    (k < segments && a == b) || (segments + |nodes| - 1 <= k && a == c))
    {
      PatrolMoves(cos, a, b, c, segments, g, nodes, k);
    }
    hide Patrol;
    var path := Patrol(cos, a, b, c, segments, nodes);
    assert path[0] == path[1] <==> a == b;
    assert path[|path| - 2] == path[|path| - 1] <==> a == c;
  }

  /** The path starts and ends at the port, meets both corners, keeps every point in range, and for
      steps above the tolerances its length is known in closed form. No joint is repeated: two
      neighbouring points are the same only when the port is one of the corners. */
  lemma PatrolShape(cos: Cosine, a: Point, b: Point, c: Point, segments: nat, g: Grid, nodes: seq<(real, real)>)
    requires InRange(a) && InRange(b) && InRange(c) && ParallelRadius(cos, b.lat) > 0.0 && segments > 0
    requires g == Rectangle(cos, b, c, g.nx, g.ny) && g.Valid() && IsSweep(g, nodes) && |nodes| >= 2
    ensures var path := Patrol(cos, a, b, c, segments, nodes);
            && |path| == 2 * segments + |nodes|
            && path[0] == a && path[|path| - 1] == a
            && path[segments] == b && path[segments + |nodes| - 1] == c
            && (forall p <- path :: -90.0 <= p.lat <= 90.0 && -180.0 <= p.lon <= 180.0 && p.altM >= 0.0)
            && IsPatrol(cos, a, b, c, segments, nodes, path)
            && ((forall k :: 0 <= k < |path| - 1 ==> path[k] != path[k + 1]) <==> a != b && a != c)
            && path[segments + 1] != b && path[segments + |nodes| - 2] != c
    ensures g.Regular() ==>
              |Patrol(cos, a, b, c, segments, nodes)|
              == 2 * segments + g.nx * (g.ny + 1) + if g.nx % 2 == 0 then g.ny + 1 else 1
  {
    PatrolNeighbours(cos, a, b, c, segments, g, nodes);
    PatrolIsPatrol(cos, a, b, c, segments, g, nodes);
    PatrolEnds(cos, a, b, c, segments, g, nodes);
    CountClosedForm(g);
    hide ParallelRadius, Rectangle, IsPatrol, Patrol;
  }

  lemma PatrolEnds(cos: Cosine, a: Point, b: Point, c: Point, segments: nat, g: Grid, nodes: seq<(real, real)>)
    requires InRange(a) && InRange(b) && InRange(c) && ParallelRadius(cos, b.lat) > 0.0 && segments > 0
    requires g == Rectangle(cos, b, c, g.nx, g.ny) && g.Valid() && IsSweep(g, nodes) && |nodes| >= 2
    ensures var path := Patrol(cos, a, b, c, segments, nodes);
            && |path| == 2 * segments + |nodes|
            && path[0] == a && path[|path| - 1] == a
            && path[segments] == b && path[segments + |nodes| - 1] == c
            && (forall p <- path :: InRange(p))
  {
    LineEnds(a, b, segments);
    LineEnds(c, a, segments);
    SnakeInRange(cos, b, c, g, nodes);
    hide ParallelRadius, Rectangle;
  }

  function ToRaws(path: seq<Point>): seq<RawPoint> {
    seq(|path|, i requires 0 <= i < |path| => path[i].ToRaw())
  }

  /** End to end: the printer accepts every generated path, and the operator's parser reads back
      exactly its coordinates, in order. */
  lemma GeneratedPathReadsBack(fmt: NumberFormat, cos: Cosine, a: Point, b: Point, c: Point, segments: nat,
                               g: Grid, nodes: seq<(real, real)>, frame: int)
    requires InRange(a) && InRange(b) && InRange(c) && ParallelRadius(cos, b.lat) > 0.0 && segments > 0
    requires g == Rectangle(cos, b, c, g.nx, g.ny) && g.Valid() && IsSweep(g, nodes) && |nodes| >= 2
    ensures var path := Patrol(cos, a, b, c, segments, nodes);
            && AllPrintable(ToRaws(path))
            && (fmt.FaithfulOn(Numbers(ToRaws(path))) ==>
                  Route(fmt, Strings.Lines(WplText(fmt, ToRaws(path), frame)))
                  == seq(|path|, i requires 0 <= i < |path| => (path[i].lat, path[i].lon)))
    ensures var path := Patrol(cos, a, b, c, segments, nodes);
            fmt.FaithfulOn(Numbers(ToRaws(path))) ==>
              var lines := Strings.Lines(WplText(fmt, ToRaws(path), frame));
              && |lines| == |path| + 1
              && forall k :: 0 < k < |lines| ==>
                   var p := path[k - 1];
                   SaysPoint(fmt, Strings.Split(lines[k], '\t'), k - 1,
                             Dict(Number(p.lat), Number(p.lon), Number(p.altM),
                                  Number(0.0), Number(0.0), Number(0.0), Number(0.0)), frame)
  {
    hide SaysPoint;
    var path := Patrol(cos, a, b, c, segments, nodes);
    PatrolEnds(cos, a, b, c, segments, g, nodes);
    forall i | 0 <= i < |path| ensures Printable(ToRaws(path)[i]) {
      assert path[i] in path;
    }
    if fmt.FaithfulOn(Numbers(ToRaws(path))) {
      PrintThenParse(fmt, ToRaws(path), frame);
      LatLonsOfPath(path);
    }
  }

  lemma {:induction false} LatLonsOfPath(path: seq<Point>)
    requires AllPrintable(ToRaws(path))
    ensures LatLons(ToRaws(path)) == seq(|path|, i requires 0 <= i < |path| => (path[i].lat, path[i].lon))
  {
    if path != [] {
      var n := |path| - 1;
      assert ToRaws(path)[..n] == ToRaws(path[..n]);
      LatLonsOfPath(path[..n]);
    }
  }
}
