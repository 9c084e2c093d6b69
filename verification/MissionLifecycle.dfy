/** The mission life cycle as a transition system over the two tables: missions in the service,
    active plans in the core. The service's methods are proved to take exactly these steps; the
    properties below hold of every run. */
module MissionLifecycle {
  import opened Wrappers
  import opened FlightPlans
  import opened RouteOptimizers

  datatype MissionStatus = DRAFT | VALIDATED | APPROVED | ACTIVE | COMPLETED | ABORTED | FAILED

  datatype MissionRecord = MissionRecord(
    missionId: string, operatorId: string, uasId: string, plan: FlightPlan, status: MissionStatus,
    createdAt: real, updatedAt: real, approvedBy: Option<string>, approvedAt: Option<real>,
    startedAt: Option<real>, completedAt: Option<real>, abortReason: Option<string>)

  datatype Config = Config(geo: Geodesy, zones: seq<Zone>, maxConcurrent: int, optimize: bool, retentionDays: int)

  datatype PlannerState = PlannerState(missions: map<string, MissionRecord>, active: map<string, FlightPlan>)

  datatype CreateRequest = CreateRequest(
    missionId: string, operatorId: Option<string>, uasId: Option<string>,
    waypoints: seq<Waypoint>, emergencyPoints: seq<Waypoint>, takeoffTime: real)

  datatype PlanUpdates = PlanUpdates(
    waypoints: Option<seq<Waypoint>>, emergencyPoints: Option<seq<Waypoint>>, takeoffTime: Option<real>)

  datatype Refusal =
    | MissingFields | TooManyMissions | ValidationFailed | NotFound | WrongStatus(status: MissionStatus) | BadWeather

  datatype Reply = Done(status: MissionStatus) | Refused(reason: Refusal)

  predicate Blank(s: Option<string>) {
    s.None? || s.value == ""
  }

  function PlanFor(g: Geodesy, missionId: string, uasId: string, ws: seq<Waypoint>, es: seq<Waypoint>, takeoff: real)
    : FlightPlan
    requires ws != []
  {
    FlightPlan(missionId, uasId, ws, takeoff, FlightDuration(g, ws), MaxAltitude(ws), TotalDistance(g, ws), es)
  }

  function StatusFor(v: ValidationResult): MissionStatus {
    if v.WARNING? then DRAFT else VALIDATED
  }

  ghost function CreateStep(c: Config, s: PlannerState, r: CreateRequest, now: real): (PlannerState, Reply) {
    if Blank(r.operatorId) || Blank(r.uasId) || r.waypoints == [] then (s, Refused(MissingFields))
    else if |s.active| >= c.maxConcurrent then (s, Refused(TooManyMissions))
    else
      var plan := PlanFor(c.geo, r.missionId, r.uasId.value, r.waypoints, r.emergencyPoints, r.takeoffTime);
      var v := Verdict(c.geo, c.zones, plan, s.active);
      if v.INVALID? then (s, Refused(ValidationFailed))
      else
        var stored := if c.optimize && v.VALID? then OptimizedPlan(plan) else plan;
        var m := MissionRecord(r.missionId, r.operatorId.value, r.uasId.value, stored, StatusFor(v),
                               now, now, None, None, None, None, None);
        (s.(missions := s.missions[r.missionId := m]), Done(m.status))
  }

  /** A present, non-empty list replaces the old one. */
  function Replacing(new_: Option<seq<Waypoint>>, old_: seq<Waypoint>): seq<Waypoint> {
    if new_.Some? && new_.value != [] then new_.value else old_
  }

  ghost function UpdateStep(c: Config, s: PlannerState, id: string, u: PlanUpdates, now: real): (PlannerState, Reply)
    requires id in s.missions ==> s.missions[id].plan.waypoints != []
  {
    if id !in s.missions then (s, Refused(NotFound))
    else
      var m := s.missions[id];
      if m.status.ACTIVE? || m.status.COMPLETED? then (s, Refused(WrongStatus(m.status)))
      else if u.waypoints.None? && u.emergencyPoints.None? then
        (s.(missions := s.missions[id := m.(updatedAt := now)]), Done(m.status))
      else
        var plan := PlanFor(c.geo, id, m.uasId, Replacing(u.waypoints, m.plan.waypoints),
                            Replacing(u.emergencyPoints, m.plan.emergencyPoints),
                            if u.takeoffTime.Some? then u.takeoffTime.value else m.plan.takeoffTime);
        var v := Verdict(c.geo, c.zones, plan, s.active);
        if v.INVALID? then (s, Refused(ValidationFailed))
        else
          var m' := m.(plan := plan, status := StatusFor(v), updatedAt := now);
          (s.(missions := s.missions[id := m']), Done(m'.status))
  }

  ghost function ApproveStep(s: PlannerState, id: string, approver: string, weatherOk: bool, now: real)
    : (PlannerState, Reply)
  {
    if id !in s.missions then (s, Refused(NotFound))
    else
      var m := s.missions[id];
      if !m.status.VALIDATED? then (s, Refused(WrongStatus(m.status)))
      else if !weatherOk then (s, Refused(BadWeather))
      else
        var m' := m.(status := APPROVED, approvedBy := Some(approver), approvedAt := Some(now), updatedAt := now);
        (s.(missions := s.missions[id := m']), Done(APPROVED))
  }

  ghost function StartStep(c: Config, s: PlannerState, id: string, now: real): (PlannerState, Reply) {
    if id !in s.missions then (s, Refused(NotFound))
    else
      var m := s.missions[id];
      if !m.status.APPROVED? then (s, Refused(WrongStatus(m.status)))
      else if Verdict(c.geo, c.zones, m.plan, s.active).INVALID? then (s, Refused(ValidationFailed))
      else
        var m' := m.(status := ACTIVE, startedAt := Some(now), updatedAt := now);
        (PlannerState(s.missions[id := m'], s.active[m.plan.missionId := m.plan]), Done(ACTIVE))
  }

  ghost function CompleteStep(s: PlannerState, id: string, now: real): (PlannerState, Reply) {
    if id !in s.missions then (s, Refused(NotFound))
    else
      var m := s.missions[id];
      if !m.status.ACTIVE? then (s, Refused(WrongStatus(m.status)))
      else
        var m' := m.(status := COMPLETED, completedAt := Some(now), updatedAt := now);
        (PlannerState(s.missions[id := m'], s.active - {id}), Done(COMPLETED))
  }

  ghost function AbortStep(s: PlannerState, id: string, reason: string, now: real): (PlannerState, Reply) {
    if id !in s.missions then (s, Refused(NotFound))
    else
      var m := s.missions[id];
      if !m.status.ACTIVE? then (s, Refused(WrongStatus(m.status)))
      else
        var m' := m.(status := ABORTED, abortReason := Some(reason), updatedAt := now);
        (PlannerState(s.missions[id := m'], s.active - {id}), Done(ABORTED))
  }

  function Cutoff(retentionDays: int, now: real): real {
    now - (retentionDays * 86400) as real
  }

  predicate Stale(status: MissionStatus, updatedAt: real, cutoff: real) {
    (status.COMPLETED? || status.ABORTED? || status.FAILED?) && updatedAt < cutoff
  }

  ghost function CleanupStep(c: Config, s: PlannerState, now: real): PlannerState {
    var cutoff := Cutoff(c.retentionDays, now);
    s.(missions := map id | id in s.missions && !Stale(s.missions[id].status, s.missions[id].updatedAt, cutoff)
                        :: s.missions[id])
  }

  datatype Op =
    | Create(request: CreateRequest, now: real)
    | Update(id: string, updates: PlanUpdates, now: real)
    | Approve(id: string, approver: string, weatherOk: bool, now: real)
    | Start(id: string, now: real)
    | Complete(id: string, now: real)
    | Abort(id: string, reason: string, now: real)
    | Cleanup(now: real)

  /** Missions are filed under their own id and never lose their last way point. */
  ghost predicate WellFiled(s: PlannerState) {
    forall id <- s.missions ::
      var m := s.missions[id];
      m.missionId == id && m.plan.missionId == id && |m.plan.waypoints| > 0
  }

  ghost function Step(c: Config, s: PlannerState, op: Op): PlannerState
    requires WellFiled(s)
  {
    match op
    case Create(r, now) => CreateStep(c, s, r, now).0
    case Update(id, u, now) => UpdateStep(c, s, id, u, now).0
    case Approve(id, approver, ok, now) => ApproveStep(s, id, approver, ok, now).0
    case Start(id, now) => StartStep(c, s, id, now).0
    case Complete(id, now) => CompleteStep(s, id, now).0
    case Abort(id, reason, now) => AbortStep(s, id, reason, now).0
    case Cleanup(now) => CleanupStep(c, s, now)
  }

  lemma StepStaysFiled(c: Config, s: PlannerState, op: Op)
    requires WellFiled(s)
    ensures WellFiled(Step(c, s, op))
  {
    match op
    case Create(r, now) => CreateStaysFiled(c, s, r, now);
    case Update(id, u, now) => UpdateStaysFiled(c, s, id, u, now);
    case _ =>
  }

  lemma CreateStaysFiled(c: Config, s: PlannerState, r: CreateRequest, now: real)
    requires WellFiled(s)
    ensures WellFiled(CreateStep(c, s, r, now).0)
  {
    OptimizedIsSubsequence(r.waypoints);
  }

  lemma UpdateStaysFiled(c: Config, s: PlannerState, id: string, u: PlanUpdates, now: real)
    requires WellFiled(s)
    ensures WellFiled(UpdateStep(c, s, id, u, now).0)
  {
  }

  const INITIAL := PlannerState(map[], map[])

  /** The state after a run that starts with both tables empty. */
  ghost function Run(c: Config, ops: seq<Op>): (s: PlannerState)
    ensures WellFiled(s)
  {
    if ops == [] then INITIAL
    else
      var before := Run(c, ops[..|ops| - 1]);
      StepStaysFiled(c, before, ops[|ops| - 1]);
      Step(c, before, ops[|ops| - 1])
  }

  // ----- safety of every reachable state

  /** Every active plan obeys the hard limits and keeps its distance from every other. */
  ghost predicate SkySafe(c: Config, s: PlannerState) {
    && (forall id <- s.active :: s.active[id].missionId == id && HardSafe(c.geo, c.zones, s.active[id]))
    && (forall a, b | a in s.active && b in s.active && a != b :: Separated(c.geo, s.active[a], s.active[b]))
  }

  /** Every mission in status ACTIVE flies the plan registered under its id. */
  ghost predicate ActiveRegistered(s: PlannerState) {
    forall id <- s.missions :: s.missions[id].status.ACTIVE? ==> id in s.active && s.active[id] == s.missions[id].plan
  }

  lemma SeparatedSymmetric(g: Geodesy, p: FlightPlan, q: FlightPlan)
    requires g.Symmetric() && Separated(g, p, q)
    ensures Separated(g, q, p)
  {
  }

  lemma StartIsSafe(c: Config, s: PlannerState, id: string, now: real)
    requires c.geo.Symmetric() && WellFiled(s) && SkySafe(c, s)
    ensures SkySafe(c, StartStep(c, s, id, now).0)
  {
    hide HardSafe;
    var s' := StartStep(c, s, id, now).0;
    if s'.active != s.active {
      var p := s.missions[id].plan;
      StartedPlanFits(c, s, p);
      forall b | b in s.active && b != id ensures Separated(c.geo, p, s.active[b]) && Separated(c.geo, s.active[b], p) {
        SeparatedSymmetric(c.geo, p, s.active[b]);
      }
    }
  }

  lemma StartedPlanFits(c: Config, s: PlannerState, p: FlightPlan)
    requires !Verdict(c.geo, c.zones, p, s.active).INVALID?
    ensures HardSafe(c.geo, c.zones, p)
    ensures forall b <- s.active :: b != p.missionId ==> Separated(c.geo, p, s.active[b])
  {
  }

  /** Every other operation leaves the active plans alone or takes one out. */
  lemma OthersOnlyRemove(c: Config, s: PlannerState, op: Op)
    requires WellFiled(s) && !op.Start?
    ensures var s' := Step(c, s, op);
            && (forall id <- s'.active :: id in s.active && s'.active[id] == s.active[id])
            && (forall id <- s.active ::
                id in s'.active || ((op.Complete? || op.Abort?) && op.id == id && !Flying(s', id)))
  {
    hide Verdict;
  }

  predicate Flying(s: PlannerState, id: string) {
    id in s.missions && s.missions[id].status.ACTIVE?
  }

  lemma StaysRegistered(c: Config, s: PlannerState, op: Op, id: string)
    requires WellFiled(s) && ActiveRegistered(s) && Flying(Step(c, s, op), id)
    ensures var s' := Step(c, s, op); id in s'.active && s'.active[id] == s'.missions[id].plan
  {
    hide Verdict, OptimizedPlan, PlanFor;
    StepFollowsEdges(c, s, op, id);
    if op.Start? {
      assert id != op.id ==> Flying(s, id);
    } else {
      OthersOnlyRemove(c, s, op);
      assert Flying(s, id);
    }
  }

  lemma StepIsSafe(c: Config, s: PlannerState, op: Op)
    requires c.geo.Symmetric() && WellFiled(s) && SkySafe(c, s)
    ensures SkySafe(c, Step(c, s, op))
  {
    hide StartStep, CreateStep, UpdateStep, ApproveStep, CompleteStep, AbortStep, CleanupStep, HardSafe, Separated;
    if op.Start? {
      StartIsSafe(c, s, op.id, op.now);
    } else {
      OthersOnlyRemove(c, s, op);
    }
  }

  lemma {:induction false} EveryRunIsRegistered(c: Config, ops: seq<Op>)
    ensures ActiveRegistered(Run(c, ops))
  {
    hide Step;
    if ops != [] {
      var s := Run(c, ops[..|ops| - 1]);
      EveryRunIsRegistered(c, ops[..|ops| - 1]);
      forall id | Flying(Run(c, ops), id)
        ensures var s' := Run(c, ops); id in s'.active && s'.active[id] == s'.missions[id].plan
      {
        StaysRegistered(c, s, ops[|ops| - 1], id);
      }
    }
  }

  /** In every reachable state, id reuse included, any two active plans whose time windows
      overlap have no pair of way points under 50 m apart with less than 10 m between their
      altitudes, every active plan obeys the hard limits, and each ACTIVE mission flies the
      plan registered for it. */
  lemma {:induction false} EveryRunIsSafe(c: Config, ops: seq<Op>)
    requires c.geo.Symmetric()
    ensures SkySafe(c, Run(c, ops)) && ActiveRegistered(Run(c, ops))
  {
    EveryRunIsRegistered(c, ops);
    if ops != [] {
      EveryRunIsSafe(c, ops[..|ops| - 1]);
      StepIsSafe(c, Run(c, ops[..|ops| - 1]), ops[|ops| - 1]);
    }
  }

  /** The same in numbers, at every moment: two active plans whose windows share it have no two way
      points under 50 m apart with less than 10 m between them in height; no active plan climbs
      above 120 m, flies faster than 20 m/s, is without a place for an emergency, or crosses a zone
      other than to take off or land. */
  lemma EveryMomentIsSafe(c: Config, ops: seq<Op>, a: string, b: string, t: real)
    requires c.geo.Symmetric() && a in Run(c, ops).active
    ensures var p := Run(c, ops).active[a];
            && p.emergencyPoints != []
            && forall w <- p.waypoints ::
                 && w.altitude <= 120.0 && w.speed <= 20.0
                 && (w.action == Some("takeoff") || w.action == Some("land") || forall z <- c.zones ::
                       c.geo.distance(w.latitude, w.longitude, z.latitude, z.longitude) >= z.radius)
    ensures b in Run(c, ops).active && a != b ==>
              var p, q := Run(c, ops).active[a], Run(c, ops).active[b];
              p.takeoffTime <= t <= p.takeoffTime + p.estimatedDuration
              && q.takeoffTime <= t <= q.takeoffTime + q.estimatedDuration ==>
                forall v <- p.waypoints, w <- q.waypoints ::
                  || c.geo.distance(v.latitude, v.longitude, w.latitude, w.longitude) >= 50.0
                  || v.altitude - w.altitude >= 10.0 || w.altitude - v.altitude >= 10.0
  {
    hide HardSafe, Separated, Run;
    EveryRunIsSafe(c, ops);
    var active := Run(c, ops).active;
    HardLimits(c.geo, c.zones, active[a]);
    if b in active && a != b {
      assert Separated(c.geo, active[a], active[b]);
      ApartAt(c.geo, active[a], active[b], t);
    }
  }

  lemma HardLimits(g: Geodesy, zones: seq<Zone>, p: FlightPlan)
    requires HardSafe(g, zones, p)
    ensures p.emergencyPoints != []
    ensures forall w <- p.waypoints ::
              && w.altitude <= 120.0 && w.speed <= 20.0
              && (w.action == Some("takeoff") || w.action == Some("land") || forall z <- zones ::
                    g.distance(w.latitude, w.longitude, z.latitude, z.longitude) >= z.radius)
  {
  }

  lemma ApartAt(g: Geodesy, p: FlightPlan, q: FlightPlan, t: real)
    requires Separated(g, p, q)
    ensures Airborne(p, t) && Airborne(q, t) ==>
              forall v <- p.waypoints, w <- q.waypoints ::
                || g.distance(v.latitude, v.longitude, w.latitude, w.longitude) >= 50.0
                || v.altitude - w.altitude >= 10.0 || w.altitude - v.altitude >= 10.0
  {
    OverlapMeansSharedMoment(p, q);
    if Airborne(p, t) && Airborne(q, t) {
      forall v, w | v in p.waypoints && w in q.waypoints ensures !TooClose(g, v, w) {
      }
    }
  }

  /** Approving succeeds exactly for a VALIDATED mission in flying weather, starting exactly for an
      APPROVED one whose plan still obeys the hard limits and clears the active plans, ending exactly
      for an ACTIVE one; and an ended mission's plan is no longer in the way of others. */
  lemma OperationsSucceed(c: Config, s: PlannerState, id: string, who: string, ok: bool, now: real)
    ensures ApproveStep(s, id, who, ok, now).1 == Done(APPROVED) <==> StatusOf(s, id) == Some(VALIDATED) && ok
    ensures StartStep(c, s, id, now).1 == Done(ACTIVE)
       <==> StatusOf(s, id) == Some(APPROVED) && HardSafe(c.geo, c.zones, s.missions[id].plan)
            && ClearOf(c.geo, s.missions[id].plan, s.active)
    ensures CompleteStep(s, id, now).1 == Done(COMPLETED) <==> StatusOf(s, id) == Some(ACTIVE)
    ensures AbortStep(s, id, who, now).1 == Done(ABORTED) <==> StatusOf(s, id) == Some(ACTIVE)
    ensures StatusOf(s, id) == Some(ACTIVE) ==>
              CompleteStep(s, id, now).0.active == AbortStep(s, id, who, now).0.active == s.active - {id}
    ensures ApproveStep(s, id, who, ok, now).1.Done? ==>
              StatusOf(ApproveStep(s, id, who, ok, now).0, id) == Some(APPROVED)
    ensures StartStep(c, s, id, now).1.Done? ==> StatusOf(StartStep(c, s, id, now).0, id) == Some(ACTIVE)
    ensures StatusOf(s, id) == Some(ACTIVE) ==>
              && StatusOf(CompleteStep(s, id, now).0, id) == Some(COMPLETED)
              && StatusOf(AbortStep(s, id, who, now).0, id) == Some(ABORTED)
  {
  }

  /** The mission an operation is about; cleaning up is about none. */
  function About(op: Op): Option<string> {
    match op
    case Create(r, _) => Some(r.missionId)
    case Cleanup(_) => None
    case _ => Some(op.id)
  }

  /** Nothing about this mission differs between the two states. */
  predicate SameFor(s: PlannerState, s': PlannerState, id: string) {
    && (id in s'.missions <==> id in s.missions) && (id in s.missions ==> s'.missions[id] == s.missions[id])
    && (id in s'.active <==> id in s.active) && (id in s.active ==> s'.active[id] == s.active[id])
  }

  lemma CreationKeepsOthers(c: Config, s: PlannerState, r: CreateRequest, now: real, id: string)
    requires r.missionId != id
    ensures SameFor(s, CreateStep(c, s, r, now).0, id)
  {
    hide Verdict, PlanFor, OptimizedPlan;
  }

  lemma UpdateKeepsOthers(c: Config, s: PlannerState, op: Op, id: string)
    requires WellFiled(s) && op.Update? && op.id != id
    ensures SameFor(s, UpdateStep(c, s, op.id, op.updates, op.now).0, id)
  {
    hide Verdict, PlanFor;
  }

  /** An operation about one mission leaves every other as it is, and every other's plan active. */
  lemma OneMissionAtATime(c: Config, s: PlannerState, op: Op, id: string)
    requires WellFiled(s) && About(op).Some? && About(op) != Some(id)
    ensures SameFor(s, Step(c, s, op), id)
  {
    hide Verdict, CreateStep, UpdateStep;
    match op
    case Create(r, now) => CreationKeepsOthers(c, s, r, now, id);
    case Update(_, _, _) => UpdateKeepsOthers(c, s, op, id);
    case _ =>
  }

  /** Cleaning up removes exactly the finished missions last touched before the retention period,
      counted in days of 86400 s, and changes no other and no active plan. */
  lemma CleanupRemoves(c: Config, s: PlannerState, now: real)
    ensures var s' := CleanupStep(c, s, now);
            && s'.active == s.active
            && (forall id <- s'.missions :: id in s.missions && s'.missions[id] == s.missions[id])
            && (forall id <- s.missions ::
                  id !in s'.missions <==> s.missions[id].status in {COMPLETED, ABORTED, FAILED}
                                          && s.missions[id].updatedAt + 86400.0 * c.retentionDays as real < now)
  {
    assert (c.retentionDays * 86400) as real == 86400.0 * c.retentionDays as real;
  }

  // ----- where approval comes from

  /** The edges of the life cycle; `None` stands for a mission that is not there. */
  predicate Edge(from: Option<MissionStatus>, to: MissionStatus) {
    match to
    case DRAFT | VALIDATED => true
    case APPROVED => from == Some(VALIDATED)
    case ACTIVE => from == Some(APPROVED)
    case COMPLETED | ABORTED => from == Some(ACTIVE)
    case FAILED => false
  }

  function StatusOf(s: PlannerState, id: string): Option<MissionStatus> {
    if id in s.missions then Some(s.missions[id].status) else None
  }

  /** Each step leaves a mission alone or moves it along one edge; a changed plan or a new
      mission under an old id always lands in DRAFT or VALIDATED, so it has no approval; and only
      approving it in flying weather makes a mission APPROVED, only starting it ACTIVE. Those two and
      the ends write their own stamps, and no step but those wipes one off. */
  predicate Follows(s: PlannerState, op: Op, id: string, m': MissionRecord) {
    && ((StatusOf(s, id) == Some(m'.status) && m'.plan == s.missions[id].plan) || Edge(StatusOf(s, id), m'.status))
    && (id !in s.missions || m'.plan != s.missions[id].plan ==> m'.status.DRAFT? || m'.status.VALIDATED?)
    && (m'.status.APPROVED? && StatusOf(s, id) != Some(APPROVED) ==>
          && op.Approve? && op.id == id && op.weatherOk
          && m' == s.missions[id].(status := APPROVED, approvedBy := Some(op.approver), approvedAt := Some(op.now),
                                   updatedAt := op.now))
    && (m'.status.ACTIVE? && StatusOf(s, id) != Some(ACTIVE) ==>
          && op.Start? && op.id == id
          && m' == s.missions[id].(status := ACTIVE, startedAt := Some(op.now), updatedAt := op.now))
    && (m'.status.COMPLETED? && StatusOf(s, id) != Some(COMPLETED) ==>
          && op.Complete? && op.id == id
          && m' == s.missions[id].(status := COMPLETED, completedAt := Some(op.now), updatedAt := op.now))
    && (m'.status.ABORTED? && StatusOf(s, id) != Some(ABORTED) ==>
          && op.Abort? && op.id == id
          && m' == s.missions[id].(status := ABORTED, abortReason := Some(op.reason), updatedAt := op.now))
    && (StatusOf(s, id) == Some(m'.status) && m'.status in {APPROVED, ACTIVE, COMPLETED, ABORTED} ==>
          m' == s.missions[id].(updatedAt := m'.updatedAt))
  }

  lemma CreateFollows(c: Config, s: PlannerState, op: Op, id: string)
    requires op.Create? && id in CreateStep(c, s, op.request, op.now).0.missions
    ensures Follows(s, op, id, CreateStep(c, s, op.request, op.now).0.missions[id])
  {
    hide Verdict, PlanFor, OptimizedPlan;
  }

  lemma UpdateFollows(c: Config, s: PlannerState, op: Op, id: string)
    requires WellFiled(s) && op.Update? && id in UpdateStep(c, s, op.id, op.updates, op.now).0.missions
    ensures Follows(s, op, id, UpdateStep(c, s, op.id, op.updates, op.now).0.missions[id])
  {
    hide Verdict, PlanFor, Replacing;
  }

  lemma ChangeOfStatusFollows(c: Config, s: PlannerState, op: Op, id: string)
    requires WellFiled(s) && !op.Create? && !op.Update? && id in Step(c, s, op).missions
    ensures Follows(s, op, id, Step(c, s, op).missions[id])
  {
    hide Verdict, CreateStep, UpdateStep;
  }

  lemma StepFollowsEdges(c: Config, s: PlannerState, op: Op, id: string)
    requires WellFiled(s) && id in Step(c, s, op).missions
    ensures Follows(s, op, id, Step(c, s, op).missions[id])
  {
    hide Follows, CreateStep, UpdateStep, ApproveStep, StartStep, CompleteStep, AbortStep, CleanupStep;
    match op
    case Create(_, _) => CreateFollows(c, s, op, id);
    case Update(_, _, _) => UpdateFollows(c, s, op, id);
    case _ => ChangeOfStatusFollows(c, s, op, id);
  }

  /** Operation `i` approved mission `id` when it was VALIDATED with this plan, and it has been
      APPROVED with the same plan ever since. */
  ghost predicate ApprovedSince(c: Config, ops: seq<Op>, id: string, plan: FlightPlan, i: nat) {
    && i < |ops| && ops[i].Approve? && ops[i].id == id
    && ops[i].weatherOk
    && Holds(c, ops[..i], id, VALIDATED, plan)
    && forall k :: i < k <= |ops| ==>
         Holds(c, ops[..k], id, APPROVED, plan) && StampedBy(c, ops[..k], id, ops[i].approver, ops[i].now)
  }

  ghost predicate StampedBy(c: Config, ops: seq<Op>, id: string, approver: string, now: real) {
    var s := Run(c, ops);
    id in s.missions && s.missions[id].approvedBy == Some(approver) && s.missions[id].approvedAt == Some(now)
  }

  ghost predicate Holds(c: Config, ops: seq<Op>, id: string, status: MissionStatus, plan: FlightPlan) {
    var s := Run(c, ops);
    id in s.missions && s.missions[id].status == status && s.missions[id].plan == plan
  }

  lemma ApprovalStays(c: Config, ops: seq<Op>, id: string, plan: FlightPlan, i: nat)
    requires ops != [] && ApprovedSince(c, ops[..|ops| - 1], id, plan, i) && Holds(c, ops, id, APPROVED, plan)
    requires StampedBy(c, ops, id, ops[i].approver, ops[i].now)
    ensures ApprovedSince(c, ops, id, plan, i)
  {
    hide Holds, StampedBy;
    var n := |ops| - 1;
    assert ops[..n][..i] == ops[..i] && ops[..|ops|] == ops;
    forall k | i < k <= |ops|
      ensures Holds(c, ops[..k], id, APPROVED, plan) && StampedBy(c, ops[..k], id, ops[i].approver, ops[i].now)
    {
      if k <= n { assert ops[..n][..k] == ops[..k]; }
    }
  }

  /** What is APPROVED was approved in flying weather by some earlier operation, whose approver and
      time it bears, while VALIDATED with the plan it still has; it has been APPROVED ever since. */
  lemma {:induction false} ApprovedMissionWasApproved(c: Config, ops: seq<Op>, id: string)
    requires StatusOf(Run(c, ops), id) == Some(APPROVED)
    ensures exists i: nat :: ApprovedSince(c, ops, id, Run(c, ops).missions[id].plan, i)
  {
    hide Step;
    var n := |ops| - 1;
    var before, plan := Run(c, ops[..n]), Run(c, ops).missions[id].plan;
    StepFollowsEdges(c, before, ops[n], id);
    assert ops[..|ops|] == ops;
    if StatusOf(before, id) == Some(APPROVED) {
      ApprovedMissionWasApproved(c, ops[..n], id);
      var i: nat :| ApprovedSince(c, ops[..n], id, plan, i);
      assert ops[..n][..i] == ops[..i];
      assert ops[..n][..n] == ops[..n];
      assert StampedBy(c, ops[..n], id, ops[i].approver, ops[i].now);
      ApprovalStays(c, ops, id, plan, i);
    } else {
      assert ApprovedSince(c, ops, id, plan, n);
    }
  }

  /** Operation `j` started the mission after it had been approved by operation `i`, and it has been
      ACTIVE with the approved plan, and borne the stamps of both, ever since. */
  ghost predicate StartedSince(c: Config, ops: seq<Op>, id: string, plan: FlightPlan, i: nat, j: nat) {
    && j < |ops| && ops[j].Start? && ops[j].id == id
    && ApprovedSince(c, ops[..j], id, plan, i)
    && forall k :: j < k <= |ops| ==>
         Holds(c, ops[..k], id, ACTIVE, plan) && StartedAt(c, ops[..k], id, ops[i].approver, ops[i].now, ops[j].now)
  }

  ghost predicate StartedAt(c: Config, ops: seq<Op>, id: string, approver: string, approved: real, started: real) {
    StampedBy(c, ops, id, approver, approved) && Run(c, ops).missions[id].startedAt == Some(started)
  }

  lemma StartedStays(c: Config, ops: seq<Op>, id: string, plan: FlightPlan, i: nat, j: nat)
    requires ops != [] && StartedSince(c, ops[..|ops| - 1], id, plan, i, j) && id in Run(c, ops).missions
    requires var before, after := Run(c, ops[..|ops| - 1]).missions, Run(c, ops).missions;
             id in before && after[id] == before[id].(updatedAt := after[id].updatedAt)
    ensures StartedSince(c, ops, id, plan, i, j)
  {
    hide Run, ApprovedSince;
    var n := |ops| - 1;
    assert ops[..n][..j] == ops[..j] && ops[..|ops|] == ops && ops[..n][..n] == ops[..n];
    ApprovalIsEarlier(c, ops[..j], id, plan, i);
    assert ops[..j][i] == ops[i] == ops[..n][i];
    assert Holds(c, ops[..n], id, ACTIVE, plan)
        && StartedAt(c, ops[..n], id, ops[i].approver, ops[i].now, ops[j].now);
    forall k | j < k <= |ops|
      ensures Holds(c, ops[..k], id, ACTIVE, plan)
              && StartedAt(c, ops[..k], id, ops[i].approver, ops[i].now, ops[j].now)
    {
      if k <= n { assert ops[..n][..k] == ops[..k]; }
    }
  }

  lemma ApprovalIsEarlier(c: Config, ops: seq<Op>, id: string, plan: FlightPlan, i: nat)
    requires ApprovedSince(c, ops, id, plan, i)
    ensures i < |ops| && ops[i].Approve? && StampedBy(c, ops, id, ops[i].approver, ops[i].now)
  {
    assert ops[..|ops|] == ops;
  }

  /** Whatever is ACTIVE flies the very plan it held when it was last approved: in every run the
      mission was approved while VALIDATED, stayed APPROVED with an unchanged plan until it was
      started, and the plan has not changed since. */
  lemma {:induction false} ActiveMissionWasApproved(c: Config, ops: seq<Op>, id: string)
    requires StatusOf(Run(c, ops), id) == Some(ACTIVE)
    ensures exists i: nat, j: nat :: StartedSince(c, ops, id, Run(c, ops).missions[id].plan, i, j)
  {
    hide Step, ApprovedSince;
    var n := |ops| - 1;
    var before, plan := Run(c, ops[..n]), Run(c, ops).missions[id].plan;
    StepFollowsEdges(c, before, ops[n], id);
    assert ops[..|ops|] == ops;
    if StatusOf(before, id) == Some(ACTIVE) {
      ActiveMissionWasApproved(c, ops[..n], id);
      var i: nat, j: nat :| StartedSince(c, ops[..n], id, plan, i, j);
      StartedStays(c, ops, id, plan, i, j);
    } else {
      ApprovedMissionWasApproved(c, ops[..n], id);
      var i: nat :| ApprovedSince(c, ops[..n], id, plan, i);
      ApprovalIsEarlier(c, ops[..n], id, plan, i);
      assert StartedSince(c, ops, id, plan, i, n);
    }
  }

  // ----- plans left over

  /** Every active plan is flown by a mission in status ACTIVE. */
  ghost predicate NoneLeftOver(s: PlannerState) {
    forall id <- s.active :: Flying(s, id)
  }

  /** The operation files a new mission in place of one that is flying. */
  ghost predicate ReplacesFlying(c: Config, s: PlannerState, op: Op) {
    op.Create? && Flying(s, op.request.missionId) && CreateStep(c, s, op.request, op.now).1.Done?
  }

  lemma ReplacingLeavesOver(c: Config, s: PlannerState, op: Op)
    requires WellFiled(s) && ActiveRegistered(s) && NoneLeftOver(s)
    ensures NoneLeftOver(Step(c, s, op)) <==> !ReplacesFlying(c, s, op)
  {
    hide Verdict, PlanFor, OptimizedPlan;
    var s' := Step(c, s, op);
    if ReplacesFlying(c, s, op) {
      assert op.request.missionId in s'.active && !Flying(s', op.request.missionId);
    } else {
      forall id | id in s'.active ensures Flying(s', id) {
        assert id in s.active ==> Flying(s, id);
      }
    }
  }

  ghost predicate NeverLeftOver(c: Config, ops: seq<Op>) {
    forall k :: 0 <= k <= |ops| ==> NoneLeftAfter(c, ops[..k])
  }

  ghost predicate NoneLeftAfter(c: Config, ops: seq<Op>) {
    NoneLeftOver(Run(c, ops))
  }

  ghost predicate NeverReplacesFlying(c: Config, ops: seq<Op>) {
    forall k :: 0 <= k < |ops| ==> !ReplacesFlying(c, Run(c, ops[..k]), ops[k])
  }

  /** Throughout a run the active plans are those of missions in status ACTIVE, which alone can be
      completed or aborted, exactly when no creation took the id of a mission that was flying. */
  lemma {:induction false} PlansAreLeftOverExactly(c: Config, ops: seq<Op>)
    ensures NeverLeftOver(c, ops) <==> NeverReplacesFlying(c, ops)
  {
    hide Step, NoneLeftOver, ReplacesFlying;
    if ops == [] {
      NothingLeftOver();
    } else {
      var n := |ops| - 1;
      PlansAreLeftOverExactly(c, ops[..n]);
      LeftOverPrefix(c, ops);
      ReplacesPrefix(c, ops);
      assert ops[..n][..n] == ops[..n];
      EveryRunIsRegistered(c, ops[..n]);
      if NoneLeftOver(Run(c, ops[..n])) {
        ReplacingLeavesOver(c, Run(c, ops[..n]), ops[n]);
      }
    }
  }

  lemma NothingLeftOver()
    ensures NoneLeftOver(INITIAL)
  {
  }

  lemma LeftOverPrefix(c: Config, ops: seq<Op>)
    requires ops != []
    ensures NeverLeftOver(c, ops) <==> NeverLeftOver(c, ops[..|ops| - 1]) && NoneLeftAfter(c, ops)
  {
    hide NoneLeftAfter;
    var before := ops[..|ops| - 1];
    assert ops[..|ops|] == ops;
    forall k | 0 <= k < |ops| ensures before[..k] == ops[..k] {
    }
  }

  lemma ReplacesPrefix(c: Config, ops: seq<Op>)
    requires ops != []
    ensures var n := |ops| - 1;
            NeverReplacesFlying(c, ops)
            <==> NeverReplacesFlying(c, ops[..n]) && !ReplacesFlying(c, Run(c, ops[..n]), ops[n])
  {
    hide Run, ReplacesFlying;
    forall k | 0 <= k < |ops| - 1 ensures ops[..|ops| - 1][..k] == ops[..k] && ops[..|ops| - 1][k] == ops[k] {
    }
  }
}
