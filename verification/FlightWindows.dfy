/** What optimisation does to the time window a plan is separated in. The planner computes the
    duration of a flight before it drops way points and stores it unchanged, so the window that
    conflicts are looked for in may be shorter than the flight. */
module FlightWindows {
  import opened Wrappers
  import opened FlightPlans
  import opened RouteOptimizers
  import opened MissionLifecycle

  /** The plan with the duration of the way points it actually holds. */
  function Recomputed(g: Geodesy, p: FlightPlan): FlightPlan {
    p.(estimatedDuration := FlightDuration(g, p.waypoints))
  }

  /** The stored window reaches to the end of the flight. */
  predicate WindowCovers(g: Geodesy, p: FlightPlan) {
    FlightDuration(g, p.waypoints) <= p.estimatedDuration
  }

  // ----- where a stored plan comes from

  /** Operation k of a run is one that stores a plan for this mission. */
  ghost predicate Stores(c: Config, ops: seq<Op>, k: nat, id: string) {
    k < |ops| &&
    match ops[k]
    case Create(r, _) => r.missionId == id && !Blank(r.uasId) && r.waypoints != []
    case Update(i, _, _) => i == id && id in Run(c, ops[..k]).missions
    case _ => false
  }

  /** The way points it was asked to store: those of the request, or for an update without way
      points those the mission had. */
  ghost function Submitted(c: Config, ops: seq<Op>, k: nat, id: string): seq<Waypoint>
    requires Stores(c, ops, k, id)
  {
    match ops[k]
    case Create(r, _) => r.waypoints
    case Update(_, u, _) => Replacing(u.waypoints, Run(c, ops[..k]).missions[id].plan.waypoints)
  }

  /** Only a creation judged VALID has its way points optimised. */
  ghost predicate Smooths(c: Config, ops: seq<Op>, k: nat, id: string)
    requires Stores(c, ops, k, id)
  {
    ops[k].Create? && c.optimize
    && Verdict(c.geo, c.zones, PlanOf(c, ops[k].request), Run(c, ops[..k]).active).VALID?
  }

  /** The plan holds the duration of what operation k was asked to store, and those way points
      themselves, optimised or as they are. */
  ghost predicate StoredBy(c: Config, ops: seq<Op>, k: nat, id: string, p: FlightPlan) {
    && Stores(c, ops, k, id)
    && p.estimatedDuration == FlightDuration(c.geo, Submitted(c, ops, k, id))
    && p.waypoints == (if Smooths(c, ops, k, id) then Optimized(Submitted(c, ops, k, id)) else Submitted(c, ops, k, id))
  }

  ghost predicate WasStored(c: Config, ops: seq<Op>, id: string, p: FlightPlan) {
    exists k: nat :: StoredBy(c, ops, k, id, p)
  }

  ghost predicate AllStored(c: Config, ops: seq<Op>) {
    var s := Run(c, ops);
    && (forall id <- s.missions :: WasStored(c, ops, id, s.missions[id].plan))
    && (forall id <- s.active :: WasStored(c, ops, id, s.active[id]))
  }

  lemma StoringIsRemembered(c: Config, ops: seq<Op>, id: string, p: FlightPlan)
    requires ops != [] && WasStored(c, ops[..|ops| - 1], id, p)
    ensures WasStored(c, ops, id, p)
  {
    hide Verdict, Run, FlightDuration, Optimized;
    var before := ops[..|ops| - 1];
    var k: nat :| StoredBy(c, before, k, id, p);
    assert before[..k] == ops[..k] && before[k] == ops[k];
    assert StoredBy(c, ops, k, id, p);
  }

  lemma CreateStores(c: Config, ops: seq<Op>, id: string)
    requires ops != [] && ops[|ops| - 1].Create?
    requires var s := Run(c, ops[..|ops| - 1]);
             id in Run(c, ops).missions && (id in s.missions ==> Run(c, ops).missions[id] != s.missions[id])
    ensures StoredBy(c, ops, |ops| - 1, id, Run(c, ops).missions[id].plan)
  {
    hide Verdict, FlightDuration, Optimized;
    var n := |ops| - 1;
    assert Run(c, ops) == CreateStep(c, Run(c, ops[..n]), ops[n].request, ops[n].now).0;
  }

  lemma UpdateStores(c: Config, ops: seq<Op>, id: string)
    requires ops != [] && ops[|ops| - 1].Update?
    requires var s := Run(c, ops[..|ops| - 1]);
             id in s.missions && id in Run(c, ops).missions && Run(c, ops).missions[id].plan != s.missions[id].plan
    ensures StoredBy(c, ops, |ops| - 1, id, Run(c, ops).missions[id].plan)
  {
    hide Verdict, FlightDuration, Optimized;
    var n := |ops| - 1;
    assert Run(c, ops) == UpdateStep(c, Run(c, ops[..n]), ops[n].id, ops[n].updates, ops[n].now).0;
  }

  /** Whatever else an operation does, it moves plans about: a plan in its result is one that was
      there before, or the one it was given to store. */
  lemma MissionPlanWasThere(c: Config, ops: seq<Op>, id: string)
    requires ops != [] && id in Run(c, ops).missions
    ensures var s, p := Run(c, ops[..|ops| - 1]), Run(c, ops).missions[id].plan;
            (id in s.missions && p == s.missions[id].plan) || StoredBy(c, ops, |ops| - 1, id, p)
  {
    hide Verdict, FlightDuration, Optimized, PlanFor, StoredBy;
    var n := |ops| - 1;
    var s, s' := Run(c, ops[..n]), Run(c, ops);
    if ops[n].Create? && (id in s.missions ==> s'.missions[id] != s.missions[id]) {
      CreateStores(c, ops, id);
    } else if ops[n].Update? && id in s.missions && s'.missions[id].plan != s.missions[id].plan {
      UpdateStores(c, ops, id);
    } else if !ops[n].Create? && !ops[n].Update? {
      assert s' == Step(c, s, ops[n]);
      OthersKeepPlans(c, s, ops[n], id);
    }
  }

  lemma OthersKeepPlans(c: Config, s: PlannerState, op: Op, id: string)
    requires WellFiled(s) && !op.Create? && !op.Update? && id in Step(c, s, op).missions
    ensures id in s.missions && Step(c, s, op).missions[id].plan == s.missions[id].plan
  {
    hide Verdict;
  }

  lemma ActivePlanWasThere(c: Config, ops: seq<Op>, id: string)
    requires ops != [] && id in Run(c, ops).active
    ensures var s, p := Run(c, ops[..|ops| - 1]), Run(c, ops).active[id];
            (id in s.active && p == s.active[id]) || (id in s.missions && p == s.missions[id].plan)
  {
    hide Step, Verdict, FlightDuration, Optimized, PlanFor;
    var n := |ops| - 1;
    var s := Run(c, ops[..n]);
    assert Run(c, ops) == Step(c, s, ops[n]);
    if ops[n].Start? {
      StartMovesOnePlan(c, s, ops[n], id);
    } else {
      OthersOnlyRemove(c, s, ops[n]);
    }
  }

  lemma StartMovesOnePlan(c: Config, s: PlannerState, op: Op, id: string)
    requires WellFiled(s) && op.Start? && id in Step(c, s, op).active
    ensures var p := Step(c, s, op).active[id];
            (id in s.active && p == s.active[id]) || (id in s.missions && p == s.missions[id].plan)
  {
    hide Verdict;
  }

  /** In every run, every plan of the mission table and every active plan was stored by some
      operation of that run for that mission. */
  lemma {:induction false} EveryPlanWasStored(c: Config, ops: seq<Op>)
    ensures AllStored(c, ops)
  {
    hide Step, StoredBy;
    if |ops| > 0 {
      var n := |ops| - 1;
      EveryPlanWasStored(c, ops[..n]);
      var s, s' := Run(c, ops[..n]), Run(c, ops);
      forall id | id in s'.missions ensures WasStored(c, ops, id, s'.missions[id].plan) {
        MissionPlanWasThere(c, ops, id);
        if id in s.missions && s'.missions[id].plan == s.missions[id].plan {
          StoringIsRemembered(c, ops, id, s.missions[id].plan);
        }
      }
      forall id | id in s'.active ensures WasStored(c, ops, id, s'.active[id]) {
        ActivePlanWasThere(c, ops, id);
        if id in s.active && s'.active[id] == s.active[id] {
          StoringIsRemembered(c, ops, id, s.active[id]);
        } else {
          StoringIsRemembered(c, ops, id, s.missions[id].plan);
        }
      }
    }
  }

  /** In every run, an active plan was stored by some operation k of the run, and its window covers
      the flight exactly when that operation left the submitted way points alone or dropping some of
      them does not lengthen the submitted flight. */
  lemma WindowCoversExactly(c: Config, ops: seq<Op>, id: string)
    requires id in Run(c, ops).active
    ensures var p := Run(c, ops).active[id];
            exists k: nat :: StoredBy(c, ops, k, id, p) &&
              var ws := Submitted(c, ops, k, id);
              WindowCovers(c.geo, p)
              <==> (Smooths(c, ops, k, id) ==> FlightDuration(c.geo, Optimized(ws)) <= FlightDuration(c.geo, ws))
  {
    EveryPlanWasStored(c, ops);
    var p := Run(c, ops).active[id];
    assert WasStored(c, ops, id, p);
    hide Run, Verdict, FlightDuration, Optimized, Stores, Submitted, Smooths;
    var k: nat :| StoredBy(c, ops, k, id, p);
    assert StoredBy(c, ops, k, id, p);
  }

  /** A guard on the request: missions created to be flown at one speed have covering windows. */
  lemma SteadyWindowCovers(c: Config, ops: seq<Op>, id: string)
    requires c.geo.Metric() && id in Run(c, ops).active && CreatedSteady(ops, id)
    ensures WindowCovers(c.geo, Run(c, ops).active[id])
  {
    hide Run, Verdict, FlightDuration, Optimized, Steady;
    WindowCoversExactly(c, ops, id);
    var p := Run(c, ops).active[id];
    var k: nat :| StoredBy(c, ops, k, id, p) &&
      var ws := Submitted(c, ops, k, id);
      WindowCovers(c.geo, p)
      <==> (Smooths(c, ops, k, id) ==> FlightDuration(c.geo, Optimized(ws)) <= FlightDuration(c.geo, ws));
    if Smooths(c, ops, k, id) {
      var speed :| Steady(ops[k].request.waypoints, speed);
      OptimizedIsNoSlower(c.geo, ops[k].request.waypoints, speed);
    }
  }

  /** Every request to create this mission is for a flight at one speed. */
  ghost predicate CreatedSteady(ops: seq<Op>, id: string) {
    forall i :: 0 <= i < |ops| && ops[i].Create? && ops[i].request.missionId == id ==>
      exists speed :: Steady(ops[i].request.waypoints, speed)
  }

  /** Active plans whose stored windows cover their flights are separated for as long as both fly. */
  lemma CoveredFlightsAreSeparated(c: Config, ops: seq<Op>, a: string, b: string)
    requires c.geo.Symmetric()
    requires var active := Run(c, ops).active;
             a in active && b in active && a != b && WindowCovers(c.geo, active[a]) && WindowCovers(c.geo, active[b])
    ensures var active := Run(c, ops).active;
            Separated(c.geo, Recomputed(c.geo, active[a]), Recomputed(c.geo, active[b]))
  {
    EveryRunIsSafe(c, ops);
    var active := Run(c, ops).active;
    assert Separated(c.geo, active[a], active[b]);
  }

  /** Hence in every run, missions created for one speed each are separated for as long as they fly. */
  lemma SteadyFlightsAreSeparated(c: Config, ops: seq<Op>, a: string, b: string)
    requires c.geo.Symmetric() && c.geo.Metric() && CreatedSteady(ops, a) && CreatedSteady(ops, b)
    requires a in Run(c, ops).active && b in Run(c, ops).active && a != b
    ensures var active := Run(c, ops).active;
            Separated(c.geo, Recomputed(c.geo, active[a]), Recomputed(c.geo, active[b]))
  {
    hide Run, CreatedSteady, Separated, WindowCovers;
    SteadyWindowCovers(c, ops, a);
    SteadyWindowCovers(c, ops, b);
    CoveredFlightsAreSeparated(c, ops, a, b);
  }

  // ----- a run in which the stored window does not cover the flight

  /** Creating, approving and starting a mission in one go. */
  function Launch(r: CreateRequest): seq<Op> {
    [Create(r, 0.0), Approve(r.missionId, "approver", true, 0.0), Start(r.missionId, 0.0)]
  }

  lemma LaunchActivates(c: Config, ops: seq<Op>, r: CreateRequest)
    requires c.optimize && |Run(c, ops).active| < c.maxConcurrent
    requires !Blank(r.operatorId) && !Blank(r.uasId) && r.waypoints != []
    requires Verdict(c.geo, c.zones, PlanOf(c, r), Run(c, ops).active) == VALID
    ensures Run(c, ops + Launch(r)).active == Run(c, ops).active[r.missionId := OptimizedPlan(PlanOf(c, r))]
  {
    hide Verdict, PlanFor, Optimized, WellFiled;
    var create, approve, start := Launch(r)[0], Launch(r)[1], Launch(r)[2];
    OptimizedStaysAcceptable(c.geo, c.zones, PlanOf(c, r), Run(c, ops).active);
    OneMore(c, ops, create);
    var s1 := Run(c, ops + [create]);
    assert s1.active == Run(c, ops).active && s1.missions[r.missionId].plan == OptimizedPlan(PlanOf(c, r));
    OneMore(c, ops + [create], approve);
    var s2 := Run(c, ops + [create] + [approve]);
    assert s2.active == s1.active && s2.missions[r.missionId].status == APPROVED
        && s2.missions[r.missionId].plan == OptimizedPlan(PlanOf(c, r));
    OneMore(c, ops + [create] + [approve], start);
    assert PlanOf(c, r).missionId == r.missionId by { PlanIsFiled(c, r); }
    assert ops + Launch(r) == ops + [create] + [approve] + [start];
  }

  ghost function PlanOf(c: Config, r: CreateRequest): FlightPlan
    requires r.uasId.Some? && r.waypoints != []
  {
    PlanFor(c.geo, r.missionId, r.uasId.value, r.waypoints, r.emergencyPoints, r.takeoffTime)
  }

  lemma PlanIsFiled(c: Config, r: CreateRequest)
    requires r.uasId.Some? && r.waypoints != []
    ensures PlanOf(c, r).missionId == r.missionId
  {
  }

  lemma OneMore(c: Config, ops: seq<Op>, op: Op)
    ensures Run(c, ops + [op]) == Step(c, Run(c, ops), op)
  {
    assert (ops + [op])[..|ops|] == ops;
  }

  /** Two flights of the same route, the second leaving 1000 s after the first. */
  function Flight(id: string, takeoff: real): CreateRequest {
    CreateRequest(id, Some("operator"), Some("uas"), SlowFastSlow(), SlowFastSlow(), takeoff)
  }

  /** Both are started, being apart in their stored windows of some 190 s; recomputed, the first
      flight takes over 2000 s, so that both are under way at once and on the same way points. */
  lemma WindowsMayBeTooShort(c: Config)
    requires c.optimize && c.maxConcurrent >= 2 && c.geo.SquareRoot() && KilometreLegs(c.geo)
    requires RouteIsFree(c.geo, c.zones)
    ensures var active := Run(c, Launch(Flight("a", 0.0)) + Launch(Flight("b", 1000.0))).active;
            && "a" in active && "b" in active
            && !Overlap(active["a"], active["b"])
            && Overlap(Recomputed(c.geo, active["a"]), Recomputed(c.geo, active["b"]))
            && (exists v <- active["a"].waypoints, w <- active["b"].waypoints :: TooClose(c.geo, v, w))
  {
    hide Verdict, SlowFastSlow, FlightDuration, KilometreLegs, Optimized;
    var first, second := Flight("a", 0.0), Flight("b", 1000.0);
    var p, q := PlanOf(c, first), PlanOf(c, second);
    RouteTimes(c.geo);
    SlowRouteIsValid(c.geo, c.zones, p, map[]);
    assert [] + Launch(first) == Launch(first);
    LaunchActivates(c, [], first);
    var active := Run(c, Launch(first)).active;
    assert active == map["a" := OptimizedPlan(p)];
    SlowRouteIsValid(c.geo, c.zones, q, active);
    LaunchActivates(c, Launch(first), second);
    OptimizedIsSubsequence(SlowFastSlow());
    var w := SlowFastSlow()[0];
    assert w in OptimizedPlan(p).waypoints && w in OptimizedPlan(q).waypoints && TooClose(c.geo, w, w);
  }

  /** A flying mission that is created again is VALIDATED while its plan is still active. */
  lemma RecreatedMissionLeavesItsPlan(c: Config)
    requires c.optimize && c.maxConcurrent >= 2 && c.geo.SquareRoot() && KilometreLegs(c.geo)
    requires RouteIsFree(c.geo, c.zones)
    ensures var s := Run(c, Launch(Flight("a", 0.0)) + [Create(Flight("a", 0.0), 0.0)]);
            "a" in s.active && StatusOf(s, "a") == Some(VALIDATED)
  {
    hide Verdict, SlowFastSlow, FlightDuration, KilometreLegs, Optimized;
    var flight := Flight("a", 0.0);
    var p := PlanOf(c, flight);
    SlowRouteIsValid(c.geo, c.zones, p, map[]);
    assert [] + Launch(flight) == Launch(flight);
    LaunchActivates(c, [], flight);
    var active := Run(c, Launch(flight)).active;
    assert active == map["a" := OptimizedPlan(p)];
    PlanIsFiled(c, flight);
    SlowRouteIsValid(c.geo, c.zones, p, active);
    OneMore(c, Launch(flight), Create(flight, 0.0));
  }
}
