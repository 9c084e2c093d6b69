/** The planner's trusted core: it collects validation issues in loops and keeps the
    table of active plans. Each loop is proved to report exactly the issues that exist;
    together they decide `FlightPlans.Verdict`. */
module MissionPlannerCores {
  import opened Reals
  import opened Wrappers
  import opened FlightPlans

  datatype IssueKind =
    | AltitudeExceeded | AltitudeTooLow | SpeedExceeded
    | NoFlyZoneViolation(zone: Zone)
    | RangeExceeded | DurationExceeded
    | NoEmergencyPoints | EmergencyPointTooFar
    | MissionConflict(missionId: string)

  datatype Issue = Issue(kind: IssueKind, waypoint: Option<nat>)
  {
    predicate Critical() {
      kind.AltitudeExceeded? || kind.SpeedExceeded? || kind.NoFlyZoneViolation?
      || kind.NoEmergencyPoints? || kind.MissionConflict?
    }
  }

  datatype SpatialConflict = SpatialConflict(waypoint: nat, other: nat, distance: real)

  datatype FlightParameters = FlightParameters(totalDistance: real, estimatedDuration: real, maxAltitude: real)

  /** The issue points at a way point of the plan. */
  predicate AtWaypoint(p: FlightPlan, issue: Issue) {
    issue.waypoint.Some? && issue.waypoint.value < |p.waypoints|
  }

  predicate AltitudeIssue(p: FlightPlan, issue: Issue) {
    AtWaypoint(p, issue) &&
    var w := p.waypoints[issue.waypoint.value];
    match issue.kind
    case AltitudeExceeded => w.altitude > MAX_ALTITUDE
    case AltitudeTooLow => TooLow(w)
    case _ => false
  }

  predicate SpeedIssue(p: FlightPlan, issue: Issue) {
    AtWaypoint(p, issue) && issue.kind.SpeedExceeded? && p.waypoints[issue.waypoint.value].speed > MAX_SPEED
  }

  predicate NoFlyIssue(g: Geodesy, zones: seq<Zone>, p: FlightPlan, issue: Issue) {
    AtWaypoint(p, issue) && issue.kind.NoFlyZoneViolation? && issue.kind.zone in zones
    && InZone(g, p.waypoints[issue.waypoint.value], issue.kind.zone)
  }

  predicate RangeIssue(g: Geodesy, p: FlightPlan, issue: Issue) {
    issue.waypoint.None? &&
    match issue.kind
    case RangeExceeded => TotalDistance(g, p.waypoints) > MAX_RANGE
    case DurationExceeded => FlightDuration(g, p.waypoints) > MAX_DURATION
    case _ => false
  }

  ghost predicate EmergencyIssue(g: Geodesy, p: FlightPlan, issue: Issue) {
    if p.emergencyPoints == [] then issue == Issue(NoEmergencyPoints, None)
    else AtWaypoint(p, issue) && issue.kind.EmergencyPointTooFar?
         && FarFromEmergency(g, p.waypoints[issue.waypoint.value], p.emergencyPoints)
  }

  ghost predicate ConflictIssue(g: Geodesy, p: FlightPlan, active: map<string, FlightPlan>, issue: Issue) {
    AtWaypoint(p, issue) && issue.kind.MissionConflict? &&
    var id := issue.kind.missionId;
    id in active && id != p.missionId && Overlap(p, active[id])
    && exists b <- active[id].waypoints :: TooClose(g, p.waypoints[issue.waypoint.value], b)
  }

  /** Every issue the core should report for a plan, and no other. */
  ghost predicate Reportable(g: Geodesy, zones: seq<Zone>, p: FlightPlan, active: map<string, FlightPlan>,
      issue: Issue)
  {
    || AltitudeIssue(p, issue)
    || SpeedIssue(p, issue)
    || NoFlyIssue(g, zones, p, issue)
    || RangeIssue(g, p, issue)
    || EmergencyIssue(g, p, issue)
    || ConflictIssue(g, p, active, issue)
  }

  /** A critical issue exists exactly when the plan breaks a hard limit or conflicts with
      another active plan. */
  lemma {:induction false} CriticalMeansInvalid(g: Geodesy, zones: seq<Zone>, p: FlightPlan,
      active: map<string, FlightPlan>)
    ensures (exists i: Issue :: i.Critical() && Reportable(g, zones, p, active, i))
            <==> Verdict(g, zones, p, active) == INVALID
  {
    if issue: Issue :| issue.Critical() && Reportable(g, zones, p, active, issue) {
      if AtWaypoint(p, issue) {
        assert p.waypoints[issue.waypoint.value] in p.waypoints;
      }
    }
    if !HardSafe(g, zones, p) {
      if p.emergencyPoints == [] {
        assert Reportable(g, zones, p, active, Issue(NoEmergencyPoints, None));
      } else {
        var w :| w in p.waypoints && !WaypointSafe(g, zones, w);
        var i: nat :| i < |p.waypoints| && p.waypoints[i] == w;
        if w.altitude > MAX_ALTITUDE {
          assert Reportable(g, zones, p, active, Issue(AltitudeExceeded, Some(i)));
        } else if w.speed > MAX_SPEED {
          assert Reportable(g, zones, p, active, Issue(SpeedExceeded, Some(i)));
        } else {
          var z :| z in zones && InZone(g, w, z);
          assert Reportable(g, zones, p, active, Issue(NoFlyZoneViolation(z), Some(i)));
        }
      }
    }
    if !ClearOf(g, p, active) {
      var id :| id in active && id != p.missionId && !Separated(g, p, active[id]);
      var a, b :| a in p.waypoints && b in active[id].waypoints && TooClose(g, a, b);
      var i: nat :| i < |p.waypoints| && p.waypoints[i] == a;
      assert Reportable(g, zones, p, active, Issue(MissionConflict(id), Some(i)));
    }
  }

  /** No issue at all exists exactly when the verdict is VALID. */
  lemma {:induction false} NoIssueMeansValid(g: Geodesy, zones: seq<Zone>, p: FlightPlan,
      active: map<string, FlightPlan>)
    ensures (forall i: Issue :: !Reportable(g, zones, p, active, i))
            <==> Verdict(g, zones, p, active) == VALID
  {
    CriticalMeansInvalid(g, zones, p, active);
    if issue: Issue :| Reportable(g, zones, p, active, issue) {
      if AtWaypoint(p, issue) {
        assert p.waypoints[issue.waypoint.value] in p.waypoints;
      }
      assert issue.Critical() || !Comfortable(g, p);
    }
    if HardSafe(g, zones, p) && !Comfortable(g, p) {
      if TotalDistance(g, p.waypoints) > MAX_RANGE {
        assert Reportable(g, zones, p, active, Issue(RangeExceeded, None));
      } else if FlightDuration(g, p.waypoints) > MAX_DURATION {
        assert Reportable(g, zones, p, active, Issue(DurationExceeded, None));
      } else {
        var w :| w in p.waypoints && !WaypointComfortable(g, p, w);
        var i: nat :| i < |p.waypoints| && p.waypoints[i] == w;
        if TooLow(w) {
          assert Reportable(g, zones, p, active, Issue(AltitudeTooLow, Some(i)));
        } else {
          assert Reportable(g, zones, p, active, Issue(EmergencyPointTooFar, Some(i)));
        }
      }
    }
  }

  class MissionPlannerCore {
    const geo: Geodesy
    const noFlyZones: seq<Zone>
    var activeMissions: map<string, FlightPlan>

    constructor (geo: Geodesy)
      ensures this.geo == geo && activeMissions == map[]
      ensures noFlyZones == [Zone("airport-1", 55.7558, 37.6173, 100.0), Zone("military-1", 55.8304, 37.5201, 3000.0)]
    {
      this.geo := geo;
      noFlyZones := [Zone("airport-1", 55.7558, 37.6173, 100.0), Zone("military-1", 55.8304, 37.5201, 3000.0)];
      activeMissions := map[];
    }

    method ValidateFlightPlan(p: FlightPlan) returns (result: ValidationResult, issues: seq<Issue>)
      ensures result == Verdict(geo, noFlyZones, p, activeMissions)
      ensures forall i :: i in issues <==> Reportable(geo, noFlyZones, p, activeMissions, i)
    {
      var altitude := ValidateAltitude(p);
      var speed := ValidateSpeed(p);
      var noFly := ValidateNoFlyZones(p);
      var ranges := ValidateRangeAndDuration(p);
      var emergency := ValidateEmergencyPoints(p);
      var conflicts := CheckMissionConflicts(p);
      issues := altitude + speed + noFly + ranges + emergency + conflicts;
      assert forall i :: i in issues <==> Reportable(geo, noFlyZones, p, activeMissions, i);
      CriticalMeansInvalid(geo, noFlyZones, p, activeMissions);
      NoIssueMeansValid(geo, noFlyZones, p, activeMissions);
      if exists i <- issues :: i.Critical() {
        result := INVALID;
      } else if issues != [] {
        assert Reportable(geo, noFlyZones, p, activeMissions, issues[0]);
        result := WARNING;
      } else {
        result := VALID;
      }
    }

    method ValidateAltitude(p: FlightPlan) returns (issues: seq<Issue>)
      ensures forall i :: i in issues <==> AltitudeIssue(p, i)
    {
      issues := [];
      for n := 0 to |p.waypoints|
        invariant forall i :: i in issues <==> AltitudeIssue(p, i) && i.waypoint.value < n
      {
        var w := p.waypoints[n];
        if w.altitude > MAX_ALTITUDE {
          issues := issues + [Issue(AltitudeExceeded, Some(n))];
        } else if 0.0 < w.altitude < MIN_ALTITUDE {
          issues := issues + [Issue(AltitudeTooLow, Some(n))];
        }
      }
    }

    method ValidateSpeed(p: FlightPlan) returns (issues: seq<Issue>)
      ensures forall i :: i in issues <==> SpeedIssue(p, i)
    {
      issues := [];
      for n := 0 to |p.waypoints|
        invariant forall i :: i in issues <==> SpeedIssue(p, i) && i.waypoint.value < n
      {
        if p.waypoints[n].speed > MAX_SPEED {
          issues := issues + [Issue(SpeedExceeded, Some(n))];
        }
      }
    }

    method ValidateNoFlyZones(p: FlightPlan) returns (issues: seq<Issue>)
      ensures forall i :: i in issues <==> NoFlyIssue(geo, noFlyZones, p, i)
    {
      issues := [];
      for n := 0 to |p.waypoints|
        invariant forall i :: i in issues <==> NoFlyIssue(geo, noFlyZones, p, i) && i.waypoint.value < n
      {
        var w := p.waypoints[n];
        if Exempt(w) {
          continue;
        }
        for k := 0 to |noFlyZones|
          invariant forall i :: i in issues <==>
            NoFlyIssue(geo, noFlyZones, p, i)
            && (i.waypoint.value < n || (i.waypoint.value == n && i.kind.zone in noFlyZones[..k]))
        {
          var z := noFlyZones[k];
          if geo.distance(w.latitude, w.longitude, z.latitude, z.longitude) < z.radius {
            issues := issues + [Issue(NoFlyZoneViolation(z), Some(n))];
          }
          assert noFlyZones[..k + 1] == noFlyZones[..k] + [z];
        }
        assert noFlyZones[..|noFlyZones|] == noFlyZones;
      }
    }

    method ValidateRangeAndDuration(p: FlightPlan) returns (issues: seq<Issue>)
      ensures forall i :: i in issues <==> RangeIssue(geo, p, i)
    {
      issues := [];
      var total := CalculateTotalDistance(p.waypoints);
      if total > MAX_RANGE {
        issues := issues + [Issue(RangeExceeded, None)];
      }
      var duration := EstimateFlightDuration(p.waypoints);
      if duration > MAX_DURATION {
        issues := issues + [Issue(DurationExceeded, None)];
      }
    }

    method ValidateEmergencyPoints(p: FlightPlan) returns (issues: seq<Issue>)
      ensures forall i :: i in issues <==> EmergencyIssue(geo, p, i)
    {
      issues := [];
      if p.emergencyPoints == [] {
        issues := [Issue(NoEmergencyPoints, None)];
        return;
      }
      for n := 0 to |p.waypoints|
        invariant forall i :: i in issues <==> EmergencyIssue(geo, p, i) && i.waypoint.value < n
      {
        var nearest := FindNearestEmergencyPoint(p.waypoints[n], p.emergencyPoints);
        if nearest.value > MAX_EMERGENCY_DISTANCE {
          issues := issues + [Issue(EmergencyPointTooFar, Some(n))];
        }
      }
    }

    /** The least distance; nothing (infinity in the original) when there is no point. */
    method FindNearestEmergencyPoint(w: Waypoint, es: seq<Waypoint>) returns (nearest: Option<real>)
      ensures nearest.None? <==> es == []
      ensures nearest.Some? ==> (exists e <- es :: geo.Between(w, e) == nearest.value)
                                && forall e <- es :: nearest.value <= geo.Between(w, e)
    {
      nearest := None;
      for n := 0 to |es|
        invariant nearest.None? <==> n == 0
        invariant nearest.Some? ==> (exists e <- es :: geo.Between(w, e) == nearest.value)
                                    && forall k :: 0 <= k < n ==> nearest.value <= geo.Between(w, es[k])
      {
        var d := geo.Between(w, es[n]);
        if nearest.None? || d < nearest.value {
          assert es[n] in es;
          nearest := Some(d);
        }
      }
    }

    method CheckMissionConflicts(p: FlightPlan) returns (issues: seq<Issue>)
      ensures forall i :: i in issues <==> ConflictIssue(geo, p, activeMissions, i)
    {
      issues := [];
      var todo := activeMissions.Keys;
      while todo != {}
        invariant todo <= activeMissions.Keys
        invariant forall i :: i in issues <==> ConflictIssue(geo, p, activeMissions, i) && i.kind.missionId !in todo
      {
        var id :| id in todo;
        todo := todo - {id};
        if id == p.missionId {
          continue;
        }
        if Overlap(p, activeMissions[id]) {
          var conflicts := CheckSpatialConflicts(p, activeMissions[id]);
          ghost var before := issues;
          for c := 0 to |conflicts|
            invariant forall i :: i in issues <==>
              i in before || exists k :: 0 <= k < c && i == Issue(MissionConflict(id), Some(conflicts[k].waypoint))
          {
            issues := issues + [Issue(MissionConflict(id), Some(conflicts[c].waypoint))];
          }
          forall i | ConflictIssue(geo, p, activeMissions, i) && i.kind.missionId == id
            ensures i in issues
          {
            var b :| b in activeMissions[id].waypoints && TooClose(geo, p.waypoints[i.waypoint.value], b);
            var j: nat :| j < |activeMissions[id].waypoints| && activeMissions[id].waypoints[j] == b;
            var c := SpatialConflict(i.waypoint.value, j, geo.Between(p.waypoints[i.waypoint.value], b));
            assert c in conflicts;
            var k :| 0 <= k < |conflicts| && conflicts[k] == c;
            assert i == Issue(MissionConflict(id), Some(conflicts[k].waypoint));
          }
          forall k | 0 <= k < |conflicts|
            ensures ConflictIssue(geo, p, activeMissions, Issue(MissionConflict(id), Some(conflicts[k].waypoint)))
          {
            assert conflicts[k] in conflicts;
            assert activeMissions[id].waypoints[conflicts[k].other] in activeMissions[id].waypoints;
          }
        }
      }
    }

    method CheckSpatialConflicts(p: FlightPlan, q: FlightPlan) returns (conflicts: seq<SpatialConflict>)
      ensures forall c :: c in conflicts <==> IsSpatialConflict(p, q, c)
    {
      conflicts := [];
      for i := 0 to |p.waypoints|
        invariant forall c :: c in conflicts <==> IsSpatialConflict(p, q, c) && c.waypoint < i
      {
        for j := 0 to |q.waypoints|
          invariant forall c :: c in conflicts <==>
            IsSpatialConflict(p, q, c) && (c.waypoint < i || (c.waypoint == i && c.other < j))
        {
          var a, b := p.waypoints[i], q.waypoints[j];
          var distance := geo.Between(a, b);
          var altitudeDiff := Abs(a.altitude - b.altitude);
          if distance < MIN_SEPARATION && altitudeDiff < MIN_ALTITUDE_SEPARATION {
            conflicts := conflicts + [SpatialConflict(i, j, distance)];
          }
        }
      }
    }

    predicate IsSpatialConflict(p: FlightPlan, q: FlightPlan, c: SpatialConflict) {
      c.waypoint < |p.waypoints| && c.other < |q.waypoints| &&
      var a, b := p.waypoints[c.waypoint], q.waypoints[c.other];
      TooClose(geo, a, b) && c.distance == geo.Between(a, b)
    }

    method CalculateTotalDistance(ws: seq<Waypoint>) returns (total: real)
      ensures total == TotalDistance(geo, ws)
    {
      total := 0.0;
      if |ws| < 2 {
        return;
      }
      for i := 1 to |ws|
        invariant total == TotalDistance(geo, ws[..i])
      {
        var horizontal := geo.Between(ws[i - 1], ws[i]);
        var vertical := Abs(ws[i].altitude - ws[i - 1].altitude);
        total := total + geo.Slant(horizontal, vertical);
        assert ws[..i + 1][..i] == ws[..i];
      }
      assert ws[..|ws|] == ws;
    }

    method EstimateFlightDuration(ws: seq<Waypoint>) returns (duration: real)
      ensures duration == FlightDuration(geo, ws)
    {
      duration := 0.0;
      if |ws| < 2 {
        return;
      }
      for i := 1 to |ws|
        invariant duration == FlightDuration(geo, ws[..i])
      {
        var distance := geo.Between(ws[i - 1], ws[i]);
        var avgSpeed := (ws[i - 1].speed + ws[i].speed) / 2.0;
        if avgSpeed > 0.0 {
          duration := duration + distance / avgSpeed;
        }
        if ws[i].duration.Some? && ws[i].duration.value != 0.0 {
          duration := duration + ws[i].duration.value;
        }
        assert ws[..i + 1][..i] == ws[..i];
      }
      assert ws[..|ws|] == ws;
    }

    method CalculateFlightParameters(ws: seq<Waypoint>) returns (r: FlightParameters)
      requires ws != []
      ensures r == FlightParameters(TotalDistance(geo, ws), FlightDuration(geo, ws), MaxAltitude(ws))
    {
      var total := CalculateTotalDistance(ws);
      var duration := EstimateFlightDuration(ws);
      r := FlightParameters(total, duration, MaxAltitude(ws));
    }

    method RegisterActiveMission(plan: FlightPlan)
      modifies this
      ensures activeMissions == old(activeMissions)[plan.missionId := plan]
    {
      activeMissions := activeMissions[plan.missionId := plan];
    }

    method UnregisterMission(missionId: string)
      modifies this
      ensures activeMissions == old(activeMissions) - {missionId}
    {
      if missionId in activeMissions {
        activeMissions := activeMissions - {missionId};
      }
    }
  }
}
