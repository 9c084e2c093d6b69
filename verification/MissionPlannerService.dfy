/** The planner service: missions are mutable objects kept in a table, the core keeps the
    active plans. Every method is proved to take the matching step of `MissionLifecycle`. */
module MissionPlannerServices {
  import opened Wrappers
  import opened FlightPlans
  import opened RouteOptimizers
  import opened MissionPlannerCores
  import opened MissionLifecycle

  datatype WeatherConditions = WeatherConditions(windSpeed: real, visibility: real, precipitation: bool,
      timestamp: real)

  const WEATHER_CACHE_TTL: real := 300.0
  const MAX_WIND_SPEED: real := 10.0
  const MIN_VISIBILITY: real := 1000.0

  /** The weather used at `now`: the cached report while it is fresh, else the stand-in report. */
  function CurrentWeather(cache: Option<WeatherConditions>, now: real): WeatherConditions {
    if cache.Some? && now - cache.value.timestamp < WEATHER_CACHE_TTL then cache.value
    else WeatherConditions(5.0, 5000.0, false, now)
  }

  predicate FitToFly(w: WeatherConditions) {
    w.windSpeed <= MAX_WIND_SPEED && w.visibility >= MIN_VISIBILITY && !w.precipitation
  }

  /** Only a cached report less than 300 s old can keep a mission on the ground: strong wind, poor
      visibility or precipitation. */
  lemma WeatherMeans(cache: Option<WeatherConditions>, now: real)
    ensures !FitToFly(CurrentWeather(cache, now))
       <==> cache.Some? && now < cache.value.timestamp + 300.0
            && (cache.value.windSpeed > 10.0 || cache.value.visibility < 1000.0 || cache.value.precipitation)
    ensures CurrentWeather(cache, now) == if cache.Some? && now < cache.value.timestamp + 300.0 then cache.value
                                          else WeatherConditions(5.0, 5000.0, false, now)
  {
  }

  /** A mission object. It is shared by the mission table and the history, and updated in place. */
  class Mission {
    var record: MissionRecord

    constructor (record: MissionRecord)
      ensures this.record == record
    {
      this.record := record;
    }
  }

  class MissionPlannerService {
    const core: MissionPlannerCore
    const maxConcurrentMissions: int
    const enableRouteOptimization: bool
    const missionRetentionDays: int
    var missions: map<string, Mission>
    var missionHistory: seq<Mission>
    var weatherCache: Option<WeatherConditions>
    ghost var records: map<string, MissionRecord>  // the values of the mission objects in the table

    constructor (core: MissionPlannerCore, maxConcurrent: int, optimize: bool, retentionDays: int)
      ensures Valid() && fresh(this) && this.core == core
      ensures missions == map[] && missionHistory == [] && weatherCache == None
      ensures Settings() == Config(core.geo, core.noFlyZones, maxConcurrent, optimize, retentionDays)
    {
      this.core := core;
      maxConcurrentMissions, enableRouteOptimization, missionRetentionDays := maxConcurrent, optimize, retentionDays;
      missions, missionHistory, weatherCache, records := map[], [], None, map[];
    }

    function Settings(): Config {
      Config(core.geo, core.noFlyZones, maxConcurrentMissions, enableRouteOptimization, missionRetentionDays)
    }

    ghost function State(): PlannerState
      reads this`records, core
    {
      PlannerState(records, core.activeMissions)
    }

    /** Missions are filed under their own id, so no object is in the table twice. */
    ghost predicate Valid()
      reads this`missions, this`records, core, missions.Values
    {
      && (forall id :: id in missions <==> id in records)
      && (forall id <- missions :: missions[id].record == records[id])
      && WellFiled(State())
    }

    method CreateMission(r: CreateRequest, now: real) returns (reply: Reply)
      requires Valid()
      modifies this`missions, this`records
      ensures (State(), reply) == CreateStep(Settings(), old(State()), r, now)
      ensures Valid()
    {
      hide Verdict;
      if Blank(r.operatorId) || Blank(r.uasId) || r.waypoints == [] {
        return Refused(MissingFields);
      }
      if |core.activeMissions| >= maxConcurrentMissions {
        return Refused(TooManyMissions);
      }
      var plan, verdict := PlanAndValidate(r.missionId, r.uasId.value, r.waypoints, r.emergencyPoints, r.takeoffTime);
      if verdict == INVALID {
        return Refused(ValidationFailed);
      }
      if enableRouteOptimization && verdict == VALID {
        OptimizedIsSubsequence(plan.waypoints);
        plan := OptimizeRoute(plan);
      }
      var status := if verdict == WARNING then DRAFT else VALIDATED;
      AddRecord(r.missionId, MissionRecord(
        r.missionId, r.operatorId.value, r.uasId.value, plan, status, now, now, None, None, None, None, None));
      reply := Done(status);
    }

    /** Files a new mission object, in place of one already there under this id. */
    method AddRecord(id: string, record: MissionRecord)
      requires Valid() && record.missionId == id && record.plan.missionId == id && |record.plan.waypoints| > 0
      modifies this`missions, this`records
      ensures Valid() && records == old(records)[id := record]
    {
      var m := new Mission(record);
      missions := missions[id := m];
      records := records[id := record];
    }

    /** The part shared by creation and update: compute the flight parameters and judge the plan. */
    method PlanAndValidate(missionId: string, uasId: string, ws: seq<Waypoint>, es: seq<Waypoint>, takeoff: real)
      returns (plan: FlightPlan, verdict: ValidationResult)
      requires ws != []
      ensures plan == PlanFor(core.geo, missionId, uasId, ws, es, takeoff)
      ensures verdict == Verdict(core.geo, core.noFlyZones, plan, core.activeMissions)
    {
      var params := core.CalculateFlightParameters(ws);
      plan := FlightPlan(missionId, uasId, ws, takeoff, params.estimatedDuration, params.maxAltitude,
                         params.totalDistance, es);
      var issues;
      verdict, issues := core.ValidateFlightPlan(plan);
    }

    /** Overwrites a mission object of the table. */
    method SetRecord(id: string, m: Mission, record: MissionRecord)
      requires Valid() && id in missions && missions[id] == m
      requires record.missionId == id && record.plan.missionId == id && |record.plan.waypoints| > 0
      modifies this`records, m
      ensures Valid() && records == old(records)[id := record] && m.record == record
    {
      assert forall k | k in missions && k != id :: records[k].missionId == k && missions[k] != m;
      m.record := record;
      records := records[id := record];
    }

    method UpdateMission(id: string, u: PlanUpdates, now: real) returns (reply: Reply)
      requires Valid()
      modifies this`records, missions.Values
      ensures (State(), reply) == UpdateStep(Settings(), old(State()), id, u, now)
      ensures Valid()
    {
      UpdateStaysFiled(Settings(), State(), id, u, now);
      if id !in missions {
        return Refused(NotFound);
      }
      var m := missions[id];
      if m.record.status == ACTIVE || m.record.status == COMPLETED {
        return Refused(WrongStatus(m.record.status));
      }
      var rec := m.record;
      if u.waypoints.Some? || u.emergencyPoints.Some? {
        var waypoints := Replacing(u.waypoints, m.record.plan.waypoints);
        var emergency := Replacing(u.emergencyPoints, m.record.plan.emergencyPoints);
        var takeoff := if u.takeoffTime.Some? then u.takeoffTime.value else m.record.plan.takeoffTime;
        var plan, verdict := PlanAndValidate(id, m.record.uasId, waypoints, emergency, takeoff);
        if verdict == INVALID {
          return Refused(ValidationFailed);
        }
        rec := rec.(plan := plan, status := if verdict == WARNING then DRAFT else VALIDATED);
      }
      SetRecord(id, m, rec.(updatedAt := now));
      reply := Done(rec.status);
    }

    method ApproveMission(id: string, approver: string, now: real) returns (reply: Reply)
      requires Valid()
      modifies this`weatherCache, this`records, missions.Values
      ensures (State(), reply)
          == ApproveStep(old(State()), id, approver, FitToFly(CurrentWeather(old(weatherCache), now)), now)
      ensures Valid()
    {
      if id !in missions {
        return Refused(NotFound);
      }
      var m := missions[id];
      if m.record.status != VALIDATED {
        return Refused(WrongStatus(m.record.status));
      }
      var ok := CheckWeatherConditions(now);
      if !ok {
        return Refused(BadWeather);
      }
      SetRecord(id, m,
                m.record.(status := APPROVED, approvedBy := Some(approver), approvedAt := Some(now), updatedAt := now));
      reply := Done(APPROVED);
    }

    method CheckWeatherConditions(now: real) returns (ok: bool)
      modifies this`weatherCache
      ensures weatherCache == Some(CurrentWeather(old(weatherCache), now))
      ensures ok == FitToFly(CurrentWeather(old(weatherCache), now))
    {
      if weatherCache.None? || now - weatherCache.value.timestamp >= WEATHER_CACHE_TTL {
        weatherCache := Some(WeatherConditions(5.0, 5000.0, false, now));
      }
      var weather := weatherCache.value;
      if weather.windSpeed > MAX_WIND_SPEED {
        return false;
      }
      if weather.visibility < MIN_VISIBILITY {
        return false;
      }
      return !weather.precipitation;
    }

    method StartMission(id: string, now: real) returns (reply: Reply)
      requires Valid()
      modifies this`records, core, missions.Values
      ensures (State(), reply) == StartStep(Settings(), old(State()), id, now)
      ensures Valid()
    {
      if id !in missions {
        return Refused(NotFound);
      }
      var m := missions[id];
      if m.record.status != APPROVED {
        return Refused(WrongStatus(m.record.status));
      }
      var verdict, issues := core.ValidateFlightPlan(m.record.plan);
      if verdict == INVALID {
        return Refused(ValidationFailed);
      }
      core.RegisterActiveMission(m.record.plan);
      SetRecord(id, m, m.record.(status := ACTIVE, startedAt := Some(now), updatedAt := now));
      reply := Done(ACTIVE);
    }

    method CompleteMission(id: string, now: real) returns (reply: Reply)
      requires Valid()
      modifies this`missionHistory, this`records, core, missions.Values
      ensures (State(), reply) == CompleteStep(old(State()), id, now)
      ensures missionHistory == if reply.Done? then old(missionHistory) + [missions[id]] else old(missionHistory)
      ensures Valid()
    {
      if id !in missions {
        return Refused(NotFound);
      }
      var m := missions[id];
      if m.record.status != ACTIVE {
        return Refused(WrongStatus(m.record.status));
      }
      core.UnregisterMission(id);
      SetRecord(id, m, m.record.(status := COMPLETED, completedAt := Some(now), updatedAt := now));
      missionHistory := missionHistory + [m];
      reply := Done(COMPLETED);
    }

    method AbortMission(id: string, reason: string, now: real) returns (reply: Reply)
      requires Valid()
      modifies this`missionHistory, this`records, core, missions.Values
      ensures (State(), reply) == AbortStep(old(State()), id, reason, now)
      ensures missionHistory == if reply.Done? then old(missionHistory) + [missions[id]] else old(missionHistory)
      ensures Valid()
    {
      if id !in missions {
        return Refused(NotFound);
      }
      var m := missions[id];
      if m.record.status != ACTIVE {
        return Refused(WrongStatus(m.record.status));
      }
      core.UnregisterMission(id);
      SetRecord(id, m, m.record.(status := ABORTED, abortReason := Some(reason), updatedAt := now));
      missionHistory := missionHistory + [m];
      reply := Done(ABORTED);
    }

    /** The history entries touched at or after the cutoff, in order. */
    ghost function Recent(history: seq<Mission>, cutoff: real): seq<Mission>
      reads history
    {
      if history == [] then []
      else
        var last := history[|history| - 1];
        Recent(history[..|history| - 1], cutoff) + (if last.record.updatedAt >= cutoff then [last] else [])
    }

    lemma {:induction false} RecentMeans(history: seq<Mission>, cutoff: real)
      ensures forall m :: m in Recent(history, cutoff) <==> m in history && m.record.updatedAt >= cutoff
    {
      if history != [] {
        RecentMeans(history[..|history| - 1], cutoff);
        assert history == history[..|history| - 1] + [history[|history| - 1]];
      }
    }

    method RecentHistory(cutoff: real) returns (kept: seq<Mission>)
      ensures kept == Recent(missionHistory, cutoff)
      ensures forall m :: m in kept <==> m in missionHistory && m.record.updatedAt >= cutoff
    {
      kept := [];
      for i := 0 to |missionHistory|
        invariant kept == Recent(missionHistory[..i], cutoff)
      {
        if missionHistory[i].record.updatedAt >= cutoff {
          kept := kept + [missionHistory[i]];
        }
        assert missionHistory[..i + 1][..i] == missionHistory[..i];
      }
      assert missionHistory[..|missionHistory|] == missionHistory;
      RecentMeans(missionHistory, cutoff);
    }

    method StaleMissions(cutoff: real) returns (toRemove: set<string>)
      requires Valid()
      ensures toRemove == set id | id in records && Stale(records[id].status, records[id].updatedAt, cutoff)
    {
      var todo := missions.Keys;
      toRemove := {};
      while todo != {}
        invariant todo <= missions.Keys
        invariant toRemove == set id | id in records && id !in todo
            && Stale(records[id].status, records[id].updatedAt, cutoff)
      {
        var id :| id in todo;
        todo := todo - {id};
        if missions[id].record.status in {COMPLETED, ABORTED, FAILED} && missions[id].record.updatedAt < cutoff {
          toRemove := toRemove + {id};
        }
      }
    }

    method DropMissions(toRemove: set<string>)
      requires Valid()
      modifies this`missions, this`records
      ensures Valid() && records == old(records) - toRemove
    {
      missions := missions - toRemove;
      records := records - toRemove;
    }

    static lemma DroppingIsCleanup(c: Config, s: PlannerState, now: real, toRemove: set<string>)
      requires var cutoff := Cutoff(c.retentionDays, now);
               toRemove == set id | id in s.missions && Stale(s.missions[id].status, s.missions[id].updatedAt, cutoff)
      ensures CleanupStep(c, s, now) == s.(missions := s.missions - toRemove)
    {
    }

    method CleanupOldMissions(now: real)
      requires Valid()
      modifies this`missions, this`records, this`missionHistory
      ensures State() == CleanupStep(Settings(), old(State()), now)
      ensures missionHistory == Recent(old(missionHistory), Cutoff(missionRetentionDays, now))
      ensures Valid()
    {
      hide Stale, Recent, CleanupStep, WellFiled;
      var cutoff := Cutoff(missionRetentionDays, now);
      var toRemove := StaleMissions(cutoff);
      DroppingIsCleanup(Settings(), State(), now, toRemove);
      var kept := RecentHistory(cutoff);
      DropMissions(toRemove);
      missionHistory := kept;
    }
  }
}
