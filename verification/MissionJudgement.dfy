/** What creating and updating a mission decide, in terms of the plan submitted and the plans active
    at that moment; and what that makes of every VALIDATED, APPROVED and ACTIVE mission of a run. */
module MissionJudgements {
  import opened Wrappers
  import opened FlightPlans
  import opened RouteOptimizers
  import opened MissionLifecycle

  /** Creating a mission whose fields are given and for which there is room: a plan within the hard
      limits and clear of the active ones is filed, as VALIDATED when it keeps the soft limits as
      well, and then smoothed if so configured, else as DRAFT and as it is; any other is refused. */
  lemma CreationIsJudged(c: Config, s: PlannerState, r: CreateRequest, now: real)
    requires r.operatorId.Some? && r.operatorId.value != "" && r.uasId.Some? && r.uasId.value != ""
    requires r.waypoints != [] && |s.active| < c.maxConcurrent
    ensures var (s', reply) := CreateStep(c, s, r, now);
            var p := FlightPlan(r.missionId, r.uasId.value, r.waypoints, r.takeoffTime,
                                FlightDuration(c.geo, r.waypoints), MaxAltitude(r.waypoints),
                                TotalDistance(c.geo, r.waypoints), r.emergencyPoints);
            var safe, good := HardSafe(c.geo, c.zones, p) && ClearOf(c.geo, p, s.active), Comfortable(c.geo, p);
            && (reply == Done(VALIDATED) <==> safe && good)
            && (reply == Done(DRAFT) <==> safe && !good)
            && (reply == Refused(ValidationFailed) <==> !safe)
            && (!safe ==> s' == s)
            && (safe ==>
                  && s'.active == s.active
                  && s'.missions == s.missions[r.missionId := MissionRecord(
                       r.missionId, r.operatorId.value, r.uasId.value,
                       if c.optimize && good then p.(waypoints := Optimized(r.waypoints)) else p,
                       if good then VALIDATED else DRAFT, now, now, None, None, None, None, None)])
  {
    hide HardSafe, ClearOf, Comfortable, Optimized, FlightDuration, TotalDistance, MaxAltitude;
  }

  /** Without an operator, a unit or a way point nothing is filed, nor when the active plans are as
      many as allowed. */
  lemma CreationIsRefused(c: Config, s: PlannerState, r: CreateRequest, now: real)
    ensures var (s', reply) := CreateStep(c, s, r, now);
            var missing := || r.operatorId.None? || r.operatorId.value == ""
                           || r.uasId.None? || r.uasId.value == "" || r.waypoints == [];
            && (reply == Refused(MissingFields) <==> missing)
            && (reply == Refused(TooManyMissions) <==> !missing && |s.active| >= c.maxConcurrent)
            && (reply.Refused? ==> s' == s)
  {
    hide Verdict;
  }

  /** The plan an update with new points submits: empty lists and a missing time stand for the old. */
  function Revised(g: Geodesy, id: string, m: MissionRecord, u: PlanUpdates): FlightPlan
    requires m.plan.waypoints != []
  {
    var ws := if u.waypoints.None? || u.waypoints.value == [] then m.plan.waypoints else u.waypoints.value;
    var es := if u.emergencyPoints.None? || u.emergencyPoints.value == [] then m.plan.emergencyPoints
              else u.emergencyPoints.value;
    FlightPlan(id, m.uasId, ws, if u.takeoffTime.None? then m.plan.takeoffTime else u.takeoffTime.value,
               FlightDuration(g, ws), MaxAltitude(ws), TotalDistance(g, ws), es)
  }

  /** Updating the points of a mission that is neither ACTIVE nor COMPLETED: judged as on creation, but
      filed as it is and without touching anything else of the record. */
  lemma UpdateIsJudged(c: Config, s: PlannerState, id: string, u: PlanUpdates, now: real)
    requires WellFiled(s) && id in s.missions && s.missions[id].status !in {ACTIVE, COMPLETED}
    requires u.waypoints.Some? || u.emergencyPoints.Some?
    ensures var (s', reply) := UpdateStep(c, s, id, u, now);
            var p := Revised(c.geo, id, s.missions[id], u);
            var safe, good := HardSafe(c.geo, c.zones, p) && ClearOf(c.geo, p, s.active), Comfortable(c.geo, p);
            && (reply == Done(VALIDATED) <==> safe && good)
            && (reply == Done(DRAFT) <==> safe && !good)
            && (reply == Refused(ValidationFailed) <==> !safe)
            && (!safe ==> s' == s)
            && (safe ==>
                  && s'.active == s.active
                  && s'.missions == s.missions[id := s.missions[id].(
                       plan := p, status := if good then VALIDATED else DRAFT, updatedAt := now)])
  {
    hide HardSafe, ClearOf, Comfortable, FlightDuration, TotalDistance, MaxAltitude;
    var m := s.missions[id];
    assert PlanFor(c.geo, id, m.uasId, Replacing(u.waypoints, m.plan.waypoints),
                   Replacing(u.emergencyPoints, m.plan.emergencyPoints),
                   if u.takeoffTime.Some? then u.takeoffTime.value else m.plan.takeoffTime) == Revised(c.geo, id, m, u);
  }

  /** An update without points only touches the record; one of a mission that is missing, ACTIVE or
      COMPLETED does nothing. */
  lemma UpdateWithoutPoints(c: Config, s: PlannerState, id: string, u: PlanUpdates, now: real)
    requires WellFiled(s)
    ensures var (s', reply) := UpdateStep(c, s, id, u, now);
            && (id !in s.missions ==> s' == s && reply == Refused(NotFound))
            && (id in s.missions && s.missions[id].status in {ACTIVE, COMPLETED} ==>
                  s' == s && reply == Refused(WrongStatus(s.missions[id].status)))
            && (id in s.missions && s.missions[id].status !in {ACTIVE, COMPLETED}
                && u.waypoints.None? && u.emergencyPoints.None? ==>
                  && reply == Done(s.missions[id].status) && s'.active == s.active
                  && s'.missions == s.missions[id := s.missions[id].(updatedAt := now)])
  {
  }

  // ----- what every mission of a run was judged on

  /** Operation k of the run submits a plan for this mission. */
  ghost predicate Submits(c: Config, ops: seq<Op>, k: nat, id: string) {
    k < |ops| &&
    match ops[k]
    case Create(r, _) => r.missionId == id && r.uasId.Some? && r.waypoints != []
    case Update(i, u, _) =>
      i == id && id in Run(c, ops[..k]).missions && (u.waypoints.Some? || u.emergencyPoints.Some?)
    case _ => false
  }

  ghost function SubmittedPlan(c: Config, ops: seq<Op>, k: nat, id: string): FlightPlan
    requires Submits(c, ops, k, id)
  {
    match ops[k]
    case Create(r, _) =>
      FlightPlan(id, r.uasId.value, r.waypoints, r.takeoffTime, FlightDuration(c.geo, r.waypoints),
                 MaxAltitude(r.waypoints), TotalDistance(c.geo, r.waypoints), r.emergencyPoints)
    case Update(_, u, _) => Revised(c.geo, id, Run(c, ops[..k]).missions[id], u)
  }

  /** The plan submitted by operation k obeyed the hard limits, was clear of the plans then active and
      kept the soft limits; and this is that plan, smoothed if it was created so. */
  ghost predicate FoundGood(c: Config, ops: seq<Op>, k: nat, id: string, plan: FlightPlan) {
    Submits(c, ops, k, id) &&
    var p := SubmittedPlan(c, ops, k, id);
    && HardSafe(c.geo, c.zones, p) && ClearOf(c.geo, p, Run(c, ops[..k]).active) && Comfortable(c.geo, p)
    && plan == if ops[k].Create? && c.optimize then p.(waypoints := Optimized(p.waypoints)) else p
  }

  predicate Passed(s: PlannerState, id: string) {
    StatusOf(s, id) in {Some(VALIDATED), Some(APPROVED), Some(ACTIVE)}
  }

  lemma FindingIsRemembered(c: Config, ops: seq<Op>, k: nat, id: string, plan: FlightPlan)
    requires ops != [] && FoundGood(c, ops[..|ops| - 1], k, id, plan)
    ensures FoundGood(c, ops, k, id, plan)
  {
    hide HardSafe, ClearOf, Comfortable, Optimized, Revised, Run;
    var before := ops[..|ops| - 1];
    assert before[..k] == ops[..k] && before[k] == ops[k];
  }

  lemma CreationPasses(c: Config, ops: seq<Op>, id: string)
    requires ops != [] && ops[|ops| - 1].Create? && Passed(Run(c, ops), id)
    requires var s := Run(c, ops[..|ops| - 1]); id in s.missions ==> Run(c, ops).missions[id] != s.missions[id]
    ensures FoundGood(c, ops, |ops| - 1, id, Run(c, ops).missions[id].plan)
  {
    hide HardSafe, ClearOf, Comfortable, Optimized, FlightDuration, TotalDistance, MaxAltitude;
    var s, op := Run(c, ops[..|ops| - 1]), ops[|ops| - 1];
    assert Run(c, ops) == CreateStep(c, s, op.request, op.now).0;
    CreationIsRefused(c, s, op.request, op.now);
    if !CreateStep(c, s, op.request, op.now).1.Refused? {
      CreationIsJudged(c, s, op.request, op.now);
    }
  }

  lemma UpdatePasses(c: Config, ops: seq<Op>, id: string)
    requires ops != [] && ops[|ops| - 1].Update? && Passed(Run(c, ops), id)
    requires !Passed(Run(c, ops[..|ops| - 1]), id)
             || Run(c, ops).missions[id].plan != Run(c, ops[..|ops| - 1]).missions[id].plan
    ensures FoundGood(c, ops, |ops| - 1, id, Run(c, ops).missions[id].plan)
  {
    hide HardSafe, ClearOf, Comfortable, Optimized, Revised, UpdateStep;
    var s, op := Run(c, ops[..|ops| - 1]), ops[|ops| - 1];
    assert Run(c, ops) == UpdateStep(c, s, op.id, op.updates, op.now).0;
    UpdateWithoutPoints(c, s, op.id, op.updates, op.now);
    if op.id in s.missions && s.missions[op.id].status !in {ACTIVE, COMPLETED}
       && (op.updates.waypoints.Some? || op.updates.emergencyPoints.Some?) {
      UpdateIsJudged(c, s, op.id, op.updates, op.now);
    }
  }

  /** Every VALIDATED, APPROVED or ACTIVE mission of every run has its plan from a creation or update
      that found the submitted plan good in all three respects, against the plans then active. */
  lemma {:induction false} PassedPlansWereFoundGood(c: Config, ops: seq<Op>, id: string)
    requires Passed(Run(c, ops), id)
    ensures exists k: nat :: FoundGood(c, ops, k, id, Run(c, ops).missions[id].plan)
  {
    hide Step, FoundGood;
    var n := |ops| - 1;
    var s, s' := Run(c, ops[..n]), Run(c, ops);
    if Passed(s, id) && s'.missions[id].plan == s.missions[id].plan
       && (ops[n].Create? ==> s'.missions[id] == s.missions[id]) {
      PassedPlansWereFoundGood(c, ops[..n], id);
      var k: nat :| FoundGood(c, ops[..n], k, id, s.missions[id].plan);
      FindingIsRemembered(c, ops, k, id, s.missions[id].plan);
    } else {
      StepFollowsEdges(c, s, ops[n], id);
      if ops[n].Create? {
        CreationPasses(c, ops, id);
      } else if ops[n].Update? {
        UpdatePasses(c, ops, id);
      } else {
        OthersPassNothing(c, s, ops[n], id);
        assert false;
      }
    }
  }

  lemma OthersPassNothing(c: Config, s: PlannerState, op: Op, id: string)
    requires WellFiled(s) && !op.Create? && !op.Update? && Passed(Step(c, s, op), id)
    ensures Passed(s, id) && Step(c, s, op).missions[id].plan == s.missions[id].plan
  {
    hide Verdict;
  }
}
