# Drone operation platform: verified models

This project models the parts of the platform that are state machines, protocols, printers and
parsers, or bounded arithmetic, and proves what they are relied on for.

- **Mission planner** (`FlightPlans`, `MissionPlannerCores`, `RouteOptimizers`, `MissionLifecycle`,
  `MissionJudgements`, `FlightWindows`, `MissionPlannerServices`). The life cycle DRAFT, VALIDATED, APPROVED, ACTIVE, COMPLETED or ABORTED
  over two tables, the mission table of the service and the active plans of the core. The classes
  are proved to take the steps of a transition system; safety is proved of every run of it. The
  planner neither refuses an id already in use nor checks the cap again at the start, so nothing is
  claimed about the number of active plans.
- **Request and reply over the bus** (`RequestReply`, `Dispatch`, `Networks`). Pending table,
  futures, time-outs and publish failures as an interleaving of atomic sections; dispatch and journal;
  and the two put together, gateways that nest a second call included.
- **Route files** (`WplSweeps`, `WplPaths`, `WplPoints`, `WplTexts`, `Strings`). The sweep of a
  rectangle with its tolerances, the whole patrol path, its QGC WPL text and the parser of that text.
- **Development company** (`SecurityGoals`, `CertificateLedger`, `CertificateCalls`, `DroneRegistry`,
  `SecurityMonitor`). The certificate table and the cached copies on drone rows in another
  service; the monitor all calls go through.
- **Operator fleet and prices** (`FleetReservations`, `FleetPurchase`, `Pricing`).
- **Smaller pieces**: id issuing with rebuilt counters (`UasRegistration`), the shared reply queue
  (`ReplyQueue`), the compact token (`CompactToken`; RFC 7519 section 7, RFC 7515 Appendix C,
  RFC 4648 section 5).

Where a promise does not hold of the code as it stands, a lemma shows a concrete input and another
states exactly when it does hold:

- a VALID plan may become a WARNING by optimisation, since dropping way points may slow it down
  (`OptimizedMayWarn`, `OptimizedVerdict`);
- the stored time window of an optimised plan may end before the flight does, so that two active
  flights may meet (`WindowsMayBeTooShort`, `WindowCoversExactly`);
- creating a mission under the id of one that is flying leaves the old plan active, to be ended only
  once the new one has flown (`RecreatedMissionLeavesItsPlan`, `PlansAreLeftOverExactly`);
- certifying a firmware again may make the certificate and its drones' copies disagree
  (`RecertificationMayDisagree`, `RecertificationKeepsAgreement`);
- a purchase of a negative quantity raises the stock (`NegativePurchaseRaisesStock`, `StockPlusUnits`);
- the discount rule needs the base fee (`NoFeeWouldNotDo`, `SafeExactly`);
- a revocation whose registry call is denied or times out leaves the drones of the firmware on offer,
  until the call arrives or the report is repeated (`DeniedRevocationStaysOnOffer`,
  `RevocationsReachExactly`);
- a saved world without counters and a scenario that fails before its merge lead to ids issued twice
  (`LoadedWithoutCounterReissues`, `AbandonedIdIsReissued`, `CoveringIsExact`);
- ids with dashes in type or vendor may collide or be reissued (`DashedIdsCollide`,
  `MergedDashedIdIsReissued`);
- a status update that makes a unit RESERVED, or ends that, breaks the alternation of reservations
  and releases (`StatusUpdateBreaksAlternation`, `ReservesAndReleasesAlternate`);
- a refused update of a unit may leave a new status behind (`RefusedUpdateSticks`,
  `RefusedUpdateMayStick`);
- the monitor's guarantee rests on its name in the sender field, which the bus does not check
  (`NameMustBeGenuine`, `ExecutedCallsWereAllowed`).

A class method that changes state is specified by a step function on values
(`ensures State() == ...Step(old(State()), ...)`); the laws are lemmas about runs of these steps.

Verify with `dafny verify dfyconfig.toml`.

## Model

| member | source | states |
|---|---|---|
| MissionLifecycle.EveryRunIsSafe | systems/operator/src/mission_planner/src/mission_planner_service.py:301-311 | In every state reached by any sequence of create, update, approve, start, complete, abort and cleanup (ids reused at will), any two active plans with overlapping windows have no way points under 50 m apart with under 10 m between their altitudes, every active plan meets the hard limits, and every ACTIVE mission's own plan is the one registered under its id |
| MissionLifecycle.EveryMomentIsSafe | systems/operator/src/mission_planner/src/mission_planner_core.py:445-469 | The same in numbers: in every run and at every moment two active plans whose windows share it have no two way points under 50 m apart with under 10 m between their heights; no active plan climbs above 120 m, flies faster than 20 m/s, crosses a zone but to take off or land, or has no emergency point |
| MissionLifecycle.StartIsSafe | systems/operator/src/mission_planner/src/mission_planner_service.py:288-322 | Starting keeps the sky safe because the plan is judged again against all other active plans |
| MissionLifecycle.OperationsSucceed | systems/operator/src/mission_planner/src/mission_planner_service.py:263-380 | Approving succeeds exactly for a VALIDATED mission in flying weather, starting exactly for an APPROVED one whose plan is safe and clear now, ending exactly for an ACTIVE one, whose plan is then out of the way |
| MissionLifecycle.OthersOnlyRemove | systems/operator/src/mission_planner/src/mission_planner_service.py:324-380 | No operation but start adds or changes an active plan; completing and aborting remove only their own mission's, which is then no longer ACTIVE |
| MissionLifecycle.OneMissionAtATime | systems/operator/src/mission_planner/src/mission_planner_service.py:204-380 | An operation about one mission leaves every other record and every other active plan as it is |
| MissionLifecycle.PlansAreLeftOverExactly | systems/operator/src/mission_planner/src/mission_planner_service.py:174-190 | Throughout a run the active plans are those of ACTIVE missions, which alone can be ended, exactly when no creation took the id of a mission that was flying |
| MissionLifecycle.StepFollowsEdges | systems/operator/src/mission_planner/src/mission_planner_service.py:204-286 | Each operation moves a mission along one edge of the life cycle or leaves it; a changed plan or re-created mission lands in DRAFT or VALIDATED, hence without approval; APPROVED is entered only by approving a VALIDATED mission in flying weather, ACTIVE only by starting an APPROVED one; each writes its own stamps and wipes none |
| MissionLifecycle.ApprovedMissionWasApproved | systems/operator/src/mission_planner/src/mission_planner_service.py:263-286 | An APPROVED mission was approved in flying weather at some earlier operation while VALIDATED, with the plan it still has; it bears that approver and time and has been APPROVED with that plan ever since |
| MissionLifecycle.ActiveMissionWasApproved | systems/operator/src/mission_planner/src/mission_planner_service.py:288-322 | An ACTIVE mission flies the very plan it held when it was last approved, unchanged since, and bears the stamps of that approval and of its start |
| MissionLifecycle.StepStaysFiled | systems/operator/src/mission_planner/src/mission_planner_service.py:107-202 | Missions stay filed under their own id with at least one way point |
| MissionJudgements.PassedPlansWereFoundGood | systems/operator/src/mission_planner/src/mission_planner_service.py:151-186 | In every run the plan of every VALIDATED, APPROVED or ACTIVE mission goes back to a creation or update whose submitted plan was within the hard limits, clear of the plans then active and within the soft limits |
| MissionJudgements.CreationIsJudged | systems/operator/src/mission_planner/src/mission_planner_service.py:144-202 | A creation answers VALIDATED exactly when the submitted plan is safe, clear and comfortable, DRAFT exactly when only not comfortable, and is refused otherwise; the record filed, optimised only in the first case |
| MissionJudgements.CreationIsRefused | systems/operator/src/mission_planner/src/mission_planner_service.py:128-142 | Refused exactly without operator, unit or way points, or at the cap; nothing is filed then |
| MissionJudgements.UpdateIsJudged | systems/operator/src/mission_planner/src/mission_planner_service.py:221-261 | An update with points answers VALIDATED exactly when the plan it makes is safe, clear and comfortable, DRAFT exactly when only not comfortable, and is refused otherwise; plan, status and time of the one record change |
| MissionJudgements.UpdateWithoutPoints | systems/operator/src/mission_planner/src/mission_planner_service.py:204-228 | An update without points only touches the record; of a missing, ACTIVE or COMPLETED mission it does nothing |
| MissionLifecycle.CleanupRemoves | systems/operator/src/mission_planner/src/mission_planner_service.py:569-584 | Exactly the COMPLETED, ABORTED and FAILED missions untouched for the retention period in days are removed, no active plan |
| MissionPlannerServices.MissionPlannerService.CreateMission | systems/operator/src/mission_planner/src/mission_planner_service.py:107-202 | Refuses missing fields, the concurrency cap and INVALID plans, optimises VALID ones, and otherwise files a mission in DRAFT or VALIDATED, replacing one of the same id; a refusal changes nothing |
| MissionPlannerServices.MissionPlannerService.UpdateMission | systems/operator/src/mission_planner/src/mission_planner_service.py:204-261 | Refused for ACTIVE and COMPLETED missions and for INVALID plans; empty lists keep the old points; an accepted new plan goes back to DRAFT or VALIDATED |
| MissionPlannerServices.MissionPlannerService.ApproveMission | systems/operator/src/mission_planner/src/mission_planner_service.py:263-286 | Only a VALIDATED mission in flying weather becomes APPROVED, with approver and time; a refusal leaves both tables as they were |
| MissionPlannerServices.MissionPlannerService.CheckWeatherConditions | systems/operator/src/mission_planner/src/mission_planner_service.py:496-536 | Uses a cached report younger than 300 s, else the stand-in report; wind at most 10, visibility at least 1000, no precipitation |
| MissionPlannerServices.WeatherMeans | systems/operator/src/mission_planner/src/mission_planner_service.py:496-536 | Only a cached report less than 300 s old can keep a mission on the ground, for wind above 10, visibility below 1000 or precipitation |
| MissionPlannerServices.MissionPlannerService.StartMission | systems/operator/src/mission_planner/src/mission_planner_service.py:288-322 | Only an APPROVED mission whose plan is still not INVALID against the other active plans becomes ACTIVE, and that plan is registered; a refusal leaves both tables as they were |
| MissionPlannerServices.MissionPlannerService.CompleteMission | systems/operator/src/mission_planner/src/mission_planner_service.py:324-355 | Only an ACTIVE mission is COMPLETED; its plan leaves the active table and it joins the history |
| MissionPlannerServices.MissionPlannerService.AbortMission | systems/operator/src/mission_planner/src/mission_planner_service.py:357-380 | Only an ACTIVE mission is ABORTED, with the reason; its plan leaves the active table and it joins the history |
| MissionPlannerServices.MissionPlannerService.CleanupOldMissions | systems/operator/src/mission_planner/src/mission_planner_service.py:569-584 | Removes exactly the finished missions older than the retention period, and keeps exactly the recent history in order |
| MissionPlannerServices.MissionPlannerService.PlanAndValidate | systems/operator/src/mission_planner/src/mission_planner_service.py:140-186 | The flight parameters of the plan and the verdict on it |
| MissionPlannerCores.CriticalMeansInvalid | systems/operator/src/mission_planner/src/mission_planner_core.py:132-175 | Some critical issue can be reported for a plan exactly when it breaks a hard limit or conflicts with another active plan |
| MissionPlannerCores.NoIssueMeansValid | systems/operator/src/mission_planner/src/mission_planner_core.py:132-175 | No issue at all exactly when the verdict is VALID |
| FlightPlans.OverlapMeansSharedMoment | systems/operator/src/mission_planner/src/mission_planner_core.py:445-450 | Windows overlap when they share a moment, and without negative durations only then |
| FlightPlans.InvalidMeans | systems/operator/src/mission_planner/src/mission_planner_core.py:177-347 | INVALID in numbers: no emergency point, a way point above 120 m, faster than 20 m/s or in a zone, or one under 50 m and 10 m from that of another active plan in an overlapping window |
| FlightPlans.ValidMeans | systems/operator/src/mission_planner/src/mission_planner_core.py:177-321 | VALID in numbers: not INVALID, no way point between 0 and 10 m high, each within 500 m of an emergency point, at most 10 km and 1800 s |
| FlightPlans.OneLegLength | systems/operator/src/mission_planner/src/mission_planner_core.py:386-404 | A leg is as long as the hypotenuse of ground distance and climb |
| FlightPlans.OneLegTime | systems/operator/src/mission_planner/src/mission_planner_core.py:406-428 | A leg takes its ground distance at the mean of the two speeds, if that is positive, and the pause at its end |
| FlightPlans.RouteSplits | systems/operator/src/mission_planner/src/mission_planner_core.py:386-428 | Lengths and times add up where a route is cut at a way point |
| MissionPlannerCores.MissionPlannerCore.ValidateFlightPlan | systems/operator/src/mission_planner/src/mission_planner_core.py:132-175 | The collected issues are all and only the reportable ones, and the result is the verdict stated without reference to issues |
| MissionPlannerCores.MissionPlannerCore.ValidateAltitude | systems/operator/src/mission_planner/src/mission_planner_core.py:177-207 | Exactly the altitude issues; an altitude of zero or below is exempt from the lower limit |
| MissionPlannerCores.MissionPlannerCore.ValidateSpeed | systems/operator/src/mission_planner/src/mission_planner_core.py:209-227 | Exactly the speed issues |
| MissionPlannerCores.MissionPlannerCore.ValidateNoFlyZones | systems/operator/src/mission_planner/src/mission_planner_core.py:229-255 | Exactly the way points inside a zone that neither take off nor land there |
| MissionPlannerCores.MissionPlannerCore.ValidateRangeAndDuration | systems/operator/src/mission_planner/src/mission_planner_core.py:257-289 | Exactly the range and duration issues of the recomputed sums |
| MissionPlannerCores.MissionPlannerCore.ValidateEmergencyPoints | systems/operator/src/mission_planner/src/mission_planner_core.py:291-321 | Without emergency points one critical issue, else exactly the way points too far from all of them |
| MissionPlannerCores.MissionPlannerCore.FindNearestEmergencyPoint | systems/operator/src/mission_planner/src/mission_planner_core.py:430-443 | The minimum of the distances, none for an empty list |
| MissionPlannerCores.MissionPlannerCore.CheckMissionConflicts | systems/operator/src/mission_planner/src/mission_planner_core.py:323-347 | Exactly the conflicts with other active plans whose windows overlap |
| MissionPlannerCores.MissionPlannerCore.CheckSpatialConflicts | systems/operator/src/mission_planner/src/mission_planner_core.py:452-469 | Exactly the pairs of way points that are too close |
| MissionPlannerCores.MissionPlannerCore.CalculateTotalDistance | systems/operator/src/mission_planner/src/mission_planner_core.py:386-404 | The loop computes the sum of the leg lengths, climb included |
| MissionPlannerCores.MissionPlannerCore.EstimateFlightDuration | systems/operator/src/mission_planner/src/mission_planner_core.py:406-428 | The loop computes the sum of leg and action times, skipping legs without speed |
| MissionPlannerCores.MissionPlannerCore.CalculateFlightParameters | systems/operator/src/mission_planner/src/mission_planner_core.py:349-370 | Total distance, duration and the greatest altitude |
| MissionPlannerCores.MissionPlannerCore.RegisterActiveMission | systems/operator/src/mission_planner/src/mission_planner_core.py:471-473 | The plan is active under its own mission id, the others as before |
| MissionPlannerCores.MissionPlannerCore.UnregisterMission | systems/operator/src/mission_planner/src/mission_planner_core.py:475-478 | The mission's plan is gone, the others as before |
| FlightPlans.MaxAltitude | systems/operator/src/mission_planner/src/mission_planner_core.py:349-370 | The greatest altitude among the way points |
| RouteOptimizers.OptimizeRoute | systems/operator/src/mission_planner/src/mission_planner_service.py:461-485 | The list-building loop keeps exactly the way points that are not droppable |
| RouteOptimizers.OptimizedIsSubsequence | systems/operator/src/mission_planner/src/mission_planner_service.py:461-494 | The optimised route is the subsequence of the first, the last and every action-bearing way point and those that span 0.01 or more with their neighbours |
| RouteOptimizers.OptimizedStaysAcceptable | systems/operator/src/mission_planner/src/mission_planner_service.py:461-485 | A plan that is not INVALID is not INVALID after optimisation, against the same active missions |
| RouteOptimizers.OptimizedVerdict | systems/operator/src/mission_planner/src/mission_planner_service.py:461-485 | A VALID plan stays VALID exactly when the recomputed duration is within the limit, and is WARNING otherwise |
| RouteOptimizers.OptimizedMayWarn | systems/operator/src/mission_planner/src/mission_planner_service.py:461-485 | For any zones the route keeps out of: three way points on a meridian, about 1 km apart by haversine, whose VALID plan optimisation turns into a WARNING by slowing it down |
| RouteOptimizers.OptimizedIsNoSlower | systems/operator/src/mission_planner/src/mission_planner_core.py:406-428 | Flown at one positive speed a route takes no longer for having way points dropped, runs of dropped neighbours included |
| RouteOptimizers.SteadyPlanStaysValid | systems/operator/src/mission_planner/src/mission_planner_service.py:461-485 | A VALID plan flown at one positive speed, without negative action times, stays VALID |
| RouteOptimizers.OptimizedIsNoLonger | systems/operator/src/mission_planner/src/mission_planner_core.py:386-404 | With the ground distance a metric, the recomputed total distance never exceeds the original, runs of dropped neighbours included |
| RouteOptimizers.LegTriangle | systems/operator/src/mission_planner/src/mission_planner_core.py:372-404 | The leg length with climb obeys the triangle inequality when the ground distance does |
| FlightWindows.WindowCoversExactly | systems/operator/src/mission_planner/src/mission_planner_service.py:107-202 | In every run an active plan was stored by some creation or update k of that run for its mission; its stored window covers the flight exactly when k did not optimise the way points submitted to it, or dropping some of them does not lengthen that flight |
| FlightWindows.EveryPlanWasStored | systems/operator/src/mission_planner/src/mission_planner_service.py:204-261 | In every run each plan in either table holds the way points a creation or update of that run was given for that mission, optimised or as they are, with the duration of those given |
| FlightWindows.SteadyWindowCovers | systems/operator/src/mission_planner/src/mission_planner_service.py:151-186 | A guard on the requests: in every run the window of a mission whose creations each ask for one speed covers its flight |
| FlightWindows.CoveredFlightsAreSeparated | systems/operator/src/mission_planner/src/mission_planner_core.py:445-469 | Active plans whose stored windows cover their flights are separated for as long as both fly |
| FlightWindows.SteadyFlightsAreSeparated | systems/operator/src/mission_planner/src/mission_planner_core.py:445-469 | Hence in every run active missions created for one speed each are separated for as long as both fly |
| FlightWindows.RecreatedMissionLeavesItsPlan | systems/operator/src/mission_planner/src/mission_planner_service.py:174-190 | A run in which a flying mission is created again: its plan stays active, and it is VALIDATED |
| FlightWindows.WindowsMayBeTooShort | systems/operator/src/mission_planner/src/mission_planner_service.py:461-485 | For any zones the route keeps out of: a run of two missions on one route, apart in their stored windows, whose flights overlap in recomputed time on the same way points |
| RequestReply.EveryRunIsConsistent | broker/kafka/kafka_system_bus.py:232-277 | Under any interleaving of calls, publish failures, replies, repeats and time-outs: each future is completed at most once, only by a reply carrying its own id, and a call that returned left nothing in the pending table |
| RequestReply.LateReplyChangesNothing | broker/kafka/kafka_system_bus.py:232-241 | A reply that is late, repeated or addressed to nobody leaves the whole state as it is |
| RequestReply.NothingLeaks | broker/kafka/kafka_system_bus.py:243-277 | When every call has returned, by whichever path, the pending table is empty |
| RequestReply.CallerGetsFirstReply | broker/kafka/kafka_system_bus.py:243-277 | A call returns nothing, or the first reply carrying its id after it was issued |
| RequestReply.StepEffect | broker/kafka/kafka_system_bus.py:232-277 | One step completes a call's future only if it is a reply with its id while it is pending, and then takes the id out |
| RequestReply.PhaseAfter | broker/kafka/kafka_system_bus.py:243-277 | Where publishing, the time-out, the result and the clean-up take a call, and that nothing else moves it |
| RequestReply.IssueAndReply | broker/kafka/kafka_system_bus.py:232-256 | A new call gets a new open future; a reply whose id is pending goes into its future and takes the id out |
| RequestReply.EveryCallCanReturn | broker/kafka/kafka_system_bus.py:256-277 | No call is stuck: from every state of every run its own thread can bring it back in two steps |
| RequestReply.KafkaSystemBus.HandleReply | broker/kafka/kafka_system_bus.py:232-241 | Under the lock: pops and completes the one future registered under the id, touches no other, ignores replies without a known id |
| RequestReply.KafkaSystemBus.Register | broker/kafka/kafka_system_bus.py:253-256 | A fresh open future under the fresh id |
| RequestReply.KafkaSystemBus.Forget | broker/kafka/kafka_system_bus.py:262-277 | Removes the id if it is still there |
| Dispatch.Dispatcher.HandleMessage | sdk/base_component.py:89-138 | Publishes exactly the answer or dead letter and the journal entry specified, in that order |
| Dispatch.Dispatcher.EmitJournal | sdk/base_component.py:68-87 | One journal entry, none without a journal topic or for a journal event itself |
| Dispatch.Dispatcher.RegisterHandler | sdk/base_component.py:60-66 | The handler is found under its action, the others as before |
| Dispatch.Dispatcher.RegisterRoutes | sdk/base_gateway.py:49-51 | Every routed action gets the proxy handler, every other keeps its own |
| Dispatch.AtMostOneResponse | sdk/base_component.py:89-138 | At most one response per request, exactly the one owed, to the named topic under the request's correlation id; at most one journal entry |
| Dispatch.DispatchMeans | sdk/base_component.py:68-138 | For every message and outcome the publications in full: the sender hears the payload, the error or that the action is unknown, the dead letters hear of failures nobody awaits, the journal of every known action |
| Dispatch.UnroutedIsRefused | sdk/base_gateway.py:53-58 | An action that is not routed is answered with that |
| Dispatch.JournalDoesNotEcho | sdk/base_component.py:68-87 | A journal event never leads to another journal event, whoever handles it and however |
| Networks.CallerGetsOwnResult | broker/kafka/kafka_system_bus.py:243-267 | End to end, requests delivered at most once, replies repeated or late at will: a caller gets nothing or what its own message earned under its id, the handler's payload, the error raised, or that the action is unknown |
| Networks.GatewayForwards | sdk/base_gateway.py:53-76 | A call answered by a gateway that routes its action: the gateway made one inner request in its own name with the outer action and payload on the routed topic, to be answered under its own id, that inner call has returned, and the outer caller has, under its own correlation id, the payload of the handler on that topic, the error entry naming its failure, or the time-out entry |
| Networks.RequestsHaveOrigins | broker/kafka/kafka_system_bus.py:243-261 | Every request of every run is one that a caller sent, with only id and return topic added, or a gateway's inner request |
| Networks.WaitsForTheInnerCall | sdk/base_gateway.py:62-73 | While the inner call has not returned the outer call is unanswered, so its caller can only time out |
| Networks.GatewayAnswers | sdk/base_gateway.py:53-76 | Such an exchange happens for any payload asked with: a run in which the component gets it and the outer caller receives the component's payload through the gateway |
| Networks.EveryRunIsGated | sdk/base_gateway.py:53-76 | In every run each nested request is routed and each request is served by a dispatcher on its topic, a routed one with the result of its own inner call |
| WplSweeps.Sweep | sdk/wpl_generator_2.py:194-231 | The nested loops with the break produce a list from the near corner that always ends at the far corner (up to the stop tolerance) and not before, without repeating a point, inside the rectangle, and equal to the ideal sweep exactly when the steps exceed the tolerances |
| WplSweeps.SweepIsInjective | sdk/wpl_generator_2.py:194-231 | No grid node is visited twice |
| WplSweeps.SweepMovesOneStep | sdk/wpl_generator_2.py:194-231 | Each move is one grid step along one axis |
| WplSweeps.SweepEnds | sdk/wpl_generator_2.py:194-231 | The sweep runs from the near corner to the far corner |
| WplSweeps.NodeIsAtItsShare | sdk/wpl_generator_2.py:190-218 | Each node lies at its column's share of the width and its row's share of the height |
| WplSweeps.SweepCovers | sdk/wpl_generator_2.py:194-231 | Covered are all nodes of every column but the last, and of the last column all when the number of columns is even, only the top one when odd |
| WplSweeps.CountClosedForm | sdk/wpl_generator_2.py:194-231 | The number of nodes is nx (ny + 1) plus ny + 1 or 1 |
| WplSweeps.RegularMeans | sdk/wpl_generator_2.py:196-226 | Steps above the tolerances in numbers: a micrometre, and a nanometre for rows where the last column is not walked up |
| WplSweeps.TolerancesMean | sdk/wpl_generator_2.py:196-226 | When two points pass for one and when a point passes for the far corner, in numbers |
| WplSweeps.RegularNotBlurred | sdk/wpl_generator_2.py:196-226 | With steps above the tolerances neither the stop test nor the repeat test fires early |
| WplSweeps.BlurredWhenIrregular | sdk/wpl_generator_2.py:196-226 | With smaller steps one of them does |
| WplPaths.LocalRoundTrip | sdk/wpl_generator_2.py:73-102 | The two coordinate conversions are inverse |
| WplPaths.MetresPerDegree | sdk/wpl_generator_2.py:73-90 | A degree of latitude is a 360th of the circumference of a sphere of 6371 km, one of longitude as much times the cosine |
| WplPaths.DegreesRoundTrip | sdk/wpl_generator_2.py:73-102 | And in the other order, so that different places in metres have different coordinates |
| WplPaths.RectangleBetween | sdk/wpl_generator_2.py:92-102 | Points of the local rectangle convert to points between the corners |
| WplPaths.InterpolateLine | sdk/wpl_generator_2.py:120-138 | The loop computes the interpolated line |
| WplPaths.LineEnds | sdk/wpl_generator_2.py:120-138 | It starts and ends at the given points and stays in range when they are |
| WplPaths.LineDivides | sdk/wpl_generator_2.py:120-138 | Its points divide the way between the ends evenly in latitude, longitude and altitude |
| WplPaths.ExpandThreePoints | sdk/wpl_generator_2.py:141-255 | Accepts exactly the inputs described, so the in-loop range check never fires, and yields the straight way out, the points at the places of the sweep with the altitude rising evenly from corner to corner, and the straight way home |
| WplPaths.SweepToPoints | sdk/wpl_generator_2.py:227-245 | The snake points with the end elements set to the exact corners |
| WplPaths.PatrolShape | sdk/wpl_generator_2.py:233-255 | The path starts and ends at the port, passes both corners, has 2 segments + nodes points and all of them in range, with the closed form of the length; the k-th point of the sweep lies at the place of the k-th node and k/(nodes - 1) of the way up; neither corner is repeated where the sweep joins the legs, and no two neighbouring points of the whole path are equal exactly when the port is neither corner |
| WplPaths.GeneratedPathReadsBack | sdk/wpl_generator_2.py:141-301 | A generated path is accepted by the printer, and parsing the text gives back its coordinates in order, for every number format faithful on the numbers of that path; each line says its point with all four parameters 0 |
| WplTexts.PointsToWpl | sdk/wpl_generator_2.py:258-301 | Prints exactly the non-empty lists all of whose points are printable; otherwise names the first point that is not |
| WplTexts.PrintRow | sdk/wpl_generator_2.py:264-298 | One row of twelve columns, or a refusal exactly for an unprintable point |
| WplTexts.ParseWplRoute | systems/operator/src/operator_component/src/operator_component.py:401-414 | The loop collects what each line contributes, skipping short lines and unreadable numbers |
| WplTexts.LineContributes | systems/operator/src/operator_component/src/operator_component.py:401-414 | A line contributes exactly when it has twelve columns or more with numbers in the ninth and tenth, and then those |
| WplTexts.PrintThenParse | sdk/wpl_generator_2.py:283-301 | Parsing a printed list is the identity on coordinates, for every number format faithful on the numbers of the list; the header line is skipped and the twelve fields of every other line are its number, whether it is the first, the frame, 16, the four parameters with 0 for those missing, latitude, longitude, altitude and 1 |
| WplTexts.FaithfulFormatExists | sdk/wpl_generator_2.py:283-298 | For the numbers of any list there is a format faithful on them |
| WplPoints.ReadPoint | sdk/wpl_generator_2.py:40-58 | A point is read exactly when its three coordinates are numbers, latitude within 90, longitude within 180 and altitude not negative |
| Strings.SplitJoin | sdk/wpl_generator_2.py:280-301 | Splitting undoes joining when no part holds the separator |
| Strings.LinesUnlines | sdk/wpl_generator_2.py:299-301 | Splitting into lines undoes joining single lines |
| CertificateLedger.RevokedCertificatesReachDrones | systems/uas_dev_company/src/certification_service/critical_vulnerability_service.py:67-79 | After every call of any run, denied, unanswered and late registry calls and overtaken registrations included, a drone whose certificate record is revoked has both cached statuses revoked, unless since the last revocation that reached the drones of its firmware one was denied or a registration overtaken |
| CertificateLedger.RevocationsReachExactly | systems/uas_dev_company/src/certification_service/handlers.py:28-33 | Revocations reach all drones throughout a run exactly when none was denied while a drone of the firmware had a certificate on file and an unrevoked row, and no drone was inserted under a certificate revoked since it was read |
| CertificateLedger.StepMisses | systems/uas_dev_company/src/certification_service/critical_vulnerability_service.py:67-79 | For each call exactly which drones have a revoked certificate and an unrevoked row afterwards |
| CertificateLedger.DeniedRevocationStaysOnOffer | systems/uas_dev_company/src/shared/monitor_proxy_unwrap.py:12-31 | A run in which a denied registry call leaves a drone with a revoked certificate on offer |
| CertificateLedger.LateArrivalCompletes | systems/uas_dev_company/src/certification_service/handlers.py:28-33 | A registry call that arrives after its report has failed completes the report |
| CertificateLedger.NewReportCompletes | systems/uas_dev_company/src/certification_service/critical_vulnerability_service.py:67-79 | So does a new report with the same decision |
| CertificateLedger.RevocationIsPermanent | systems/uas_dev_company/src/drone_registry/registry_service.py:267-279 | A revoked drone row stays revoked in every continuation and is never listed as available again |
| CertificateLedger.AvailableIsNotRevoked | systems/uas_dev_company/src/drone_registry/registry_service.py:267-279 | A listed drone is backed by no revoked certificate, but for the same exceptions |
| CertificateLedger.ReportAligns | systems/uas_dev_company/src/certification_service/critical_vulnerability_service.py:67-79 | After both halves of a report all certificates and drone rows of the firmware agree on revocation or on the effective goals, in those columns alone; goals without a normal form are the only error; nothing else moved |
| CertificateLedger.AgreementIsKept | systems/uas_dev_company/src/drone_registry/registry_service.py:314-420 | Every call keeps the two tables in agreement on a firmware, but certifying it again, one half of a report on it, and an overtaken registration for it |
| CertificateLedger.AgreementWithoutRecertification | systems/uas_dev_company/src/certification_service/critical_vulnerability_service.py:124-143 | Hence over every run without such calls |
| CertificateLedger.DeniedReportKeepsAgreement | systems/uas_dev_company/src/certification_service/critical_vulnerability_service.py:67-79 | A denied report keeps the agreement exactly when every drone row with a certificate on file holds what the decision would write |
| CertificateLedger.RecertificationKeepsAgreement | systems/uas_dev_company/src/certification_service/certification_service.py:97-127 | Certifying again keeps the agreement exactly when every row under the reissued id is unrevoked and carries the new goals |
| CertificateLedger.RecertificationMayDisagree | systems/uas_dev_company/src/certification_service/certification_service.py:97-127 | For any two different sets of goals, a run in which certifying again makes the tables disagree |
| CertificateLedger.GoalsStayWithinCertificate | systems/uas_dev_company/src/shared/tcb/registry_policy.py:11-22 | Where no regulator chooses them, a drone's goals never exceed the effective goals of its certificate as it knows them, over any run |
| CertificateLedger.UpdateNarrowsGoals | systems/uas_dev_company/src/shared/tcb/vulnerability_policy.py:8-14 | A goal update leaves each drone of the firmware exactly the goals it had and the update names |
| SecurityGoals.NormalFormIsFixed | systems/uas_dev_company/src/shared/tcb/cb_constants.py:13-25 | A normal form holds exactly the goals named, all of them known, in the fixed order, and is its own normal form |
| SecurityGoals.NormalFormExists | systems/uas_dev_company/src/shared/tcb/cb_constants.py:13-25 | A list has a normal form exactly when every entry is blank or one of the three goals, and, unless allowed, not all are blank |
| SecurityGoals.NormalFormMeans | systems/uas_dev_company/src/shared/tcb/cb_constants.py:13-25 | It holds exactly the goals named, each once and in ascending order |
| Strings.StripMeans | systems/uas_dev_company/src/shared/tcb/cb_constants.py:13-15 | Stripping takes white space off both ends, and all of it |
| SecurityGoals.NarrowIsIntersection | systems/uas_dev_company/src/shared/tcb/vulnerability_policy.py:8-14 | Narrowing keeps exactly the goals in both lists |
| CertificateLedger.RegistrationOffers | systems/uas_dev_company/src/drone_registry/registry_service.py:100-248 | A registration that succeeds puts exactly that drone on offer, backed by an active certificate its copy matches; one that fails changes nothing |
| CertificateCalls.CertificationMeans | systems/uas_dev_company/src/certification_service/certification_service.py:51-127 | A known firmware that the regulator does not reject, with known goals, gets exactly one active certificate with the goals, id and signer of the answer where given, else the firmware's and the defaults; nothing else changes, and otherwise nothing at all |
| CertificateCalls.RegistrationFails | systems/uas_dev_company/src/drone_registry/registry_service.py:79-248 | A registration fails exactly when something stands in its way, for the first of eight reasons in this order, and then changes nothing |
| CertificateCalls.RegistrationMeans | systems/uas_dev_company/src/drone_registry/registry_service.py:194-265 | The row a registration adds, column by column |
| CertificateCalls.SaleMeans | systems/uas_dev_company/src/drone_registry/registry_service.py:352-420 | Buying, in both modes, and delivering rewrite one row and only the columns named |
| CertificateCalls.ReportAnswers | systems/uas_dev_company/src/certification_service/critical_vulnerability_service.py:59-79 | When a report fails and for what, over each kind of registry call, and what it leaves in each table |
| CertificateLedger.OfferAfterwards | systems/uas_dev_company/src/drone_registry/registry_service.py:352-420 | What purchase, delivery, reports and late registry calls do to the list of available drones |
| DroneRegistry.CertificationService.Certify | systems/uas_dev_company/src/certification_service/certification_service.py:51-144 | Inserts or replaces one active certificate under the id and with the goals and signer the regulator or the defaults give; each refusal leaves the table |
| DroneRegistry.CertificationService.GetCertificateSnapshot | systems/uas_dev_company/src/certification_service/certification_service.py:146-164 | The certificate on file for the pair of ids |
| DroneRegistry.DroneRegistryService.Register | systems/uas_dev_company/src/drone_registry/registry_service.py:79-265 | Normalises the chosen goals first, then adds one drone row with their normal form and the certificate's standing and goals copied from the snapshot, or refuses with the first reason that applies and leaves the table |
| DroneRegistry.DroneRegistryService.ListAvailable | systems/uas_dev_company/src/drone_registry/registry_service.py:267-279 | Exactly the available, registered, actively certified drones |
| DroneRegistry.DroneRegistryService.ApplyFirmwareCertDecision | systems/uas_dev_company/src/drone_registry/registry_service.py:314-350 | The decision reaches exactly the rows of the firmware; a refusal leaves the table |
| DroneRegistry.DroneRegistryService.NarrowRows | systems/uas_dev_company/src/drone_registry/registry_service.py:335-349 | The row loop rewrites exactly the rows of the firmware |
| DroneRegistry.DroneRegistryService.UpdateDroneAfterPurchase | systems/uas_dev_company/src/drone_registry/registry_service.py:352-400 | Changes only the purchased row, in the local or the re-registration way; revocation and cached standing stay |
| DroneRegistry.DroneRegistryService.UpdateDroneDelivery | systems/uas_dev_company/src/drone_registry/registry_service.py:402-420 | Changes only the delivery columns of the one row |
| DroneRegistry.CriticalVulnerabilityService.Report | systems/uas_dev_company/src/certification_service/critical_vulnerability_service.py:35-122 | The certificates are committed first; the drone rows follow unless the registry call is denied; a denied or unanswered call fails the report; refused goals fail it and leave both tables |
| DroneRegistry.CriticalVulnerabilityService.RegistryApply | systems/uas_dev_company/src/certification_service/handlers.py:28-33 | A denied call changes nothing and raises; any other is carried out by the registry, and raises if its answer is lost |
| DroneRegistry.CriticalVulnerabilityService.ApplyDecisionCertOnly | systems/uas_dev_company/src/certification_service/critical_vulnerability_service.py:124-143 | A revocation or new goals reach exactly the certificates of the firmware; refused goals leave the table |
| SecurityMonitor.ExecutedCallsWereAllowed | systems/uas_dev_company/src/shared/component_base.py:30-40 | In every run with rules being set, removed and cleared and a bus that loses, reorders and repeats: a worker trusting only the monitor executes a handler only for a call the monitor forwarded when some rule, wildcards included, matched its original sender, topic and action |
| SecurityMonitor.AllowedCallsAreExecuted | systems/uas_dev_company/src/shared/security_monitor.py:118-146 | Conversely, a request handed to the monitor and delivered is executed exactly when it is named, allowed both ways, and meant for an action of a worker that trusts the monitor |
| SecurityMonitor.SecurityMonitorComponent.IsAllowed | systems/uas_dev_company/src/shared/security_monitor.py:94-104 | Membership test and scan equal: some rule has this sender, and this topic or the wildcard, and this action or the wildcard |
| SecurityMonitor.SecurityMonitorComponent.HandleProxyRequest | systems/uas_dev_company/src/shared/security_monitor.py:118-146 | Forwards, under the monitor's name, exactly when a target is named, the sender is allowed and the inbound rule for the monitor exists; each refusal exactly in its case |
| SecurityMonitor.SecurityMonitorComponent.HandleProxyPublish | systems/uas_dev_company/src/shared/security_monitor.py:148-163 | Forwards exactly when allowed |
| SecurityMonitor.SecurityMonitorComponent.HandleSetPolicy | systems/uas_dev_company/src/shared/security_monitor.py:173-180 | Adds the rule to the others exactly for the administrator and a complete rule; each refusal in its case |
| SecurityMonitor.SecurityMonitorComponent.HandleRemovePolicy | systems/uas_dev_company/src/shared/security_monitor.py:182-190 | Removes exactly the rule named, for the administrator, and says whether it existed |
| SecurityMonitor.SecurityMonitorComponent.HandleClearPolicies | systems/uas_dev_company/src/shared/security_monitor.py:192-197 | Clears all rules for the administrator and says how many there were |
| SecurityMonitor.ServiceComponent.RegisterHandlers | systems/uas_dev_company/src/shared/component_base.py:30-40 | After the loop no service action is reachable except through its guard |
| SecurityMonitor.RulesChangeOnlyByAdmin | systems/uas_dev_company/src/shared/security_monitor.py:106-107 | Without calls of the administrator the rules stay the same over any run |
| SecurityMonitor.RulesInForce | systems/uas_dev_company/src/shared/security_monitor.py:173-197 | In every run a rule is in force exactly when the administrator set it, or it was there from the start, and has neither removed it nor cleared the rules since |
| SecurityMonitor.RulesAreFixedWithoutAdmin | systems/uas_dev_company/src/shared/security_monitor.py:106-107 | With no administrator named the initial rules stay for ever |
| SecurityMonitor.NameMustBeGenuine | systems/uas_dev_company/src/shared/component_base.py:34-40 | The theorem rests on the sender name: a message published directly under the monitor's name is executed without any rule |
| SecurityMonitor.NamelessCallersAreDenied | systems/uas_dev_company/src/shared/security_monitor.py:165-171 | Rules stay complete, so a caller without a name is never let through |
| SecurityMonitor.NothingPassesAfterClear | systems/uas_dev_company/src/shared/security_monitor.py:192-197 | After a clear and until a rule is set the monitor puts nothing on the bus |
| FleetReservations.CacheAgreesWithCore | systems/operator/src/fleet_manager/src/fleet_manager_service.py:252-281 | In every reachable state, status updates included, the cache holds a reservation of a unit for a mission exactly when the core's `reserved_by` is that mission |
| FleetReservations.ReservesAndReleasesAlternate | systems/operator/src/fleet_manager/src/fleet_manager_core.py:105-141 | The successful reservations of a unit and its releases out of RESERVED alternate throughout a run exactly when no status update of the run makes the unit RESERVED or takes that status away |
| FleetReservations.HoldsBalance | systems/operator/src/fleet_manager/src/fleet_manager_core.py:93-179 | In every run: reservations + updates to RESERVED = releases out of RESERVED + updates away from it + the present hold |
| FleetReservations.StatusUpdateBreaksAlternation | systems/operator/src/fleet_manager/src/fleet_manager_core.py:154-179 | A run with such an update in which two reservations follow one another |
| FleetReservations.EveryAttemptIsCounted | systems/operator/src/fleet_manager/src/fleet_manager_service.py:252-263 | Total operations = attempts = successes + failures |
| FleetReservations.AuthorizeMeans | systems/operator/src/fleet_manager/src/fleet_manager_core.py:45-91 | The first objection to an operation, by its order: missing, invalid, expired, then status, charge below 0.3 or another operator's hold |
| FleetReservations.StatusNames | systems/operator/src/fleet_manager/src/fleet_manager_core.py:158-164 | The six texts that denote a status |
| FleetReservations.UpdateMeans | systems/operator/src/fleet_manager/src/fleet_manager_core.py:154-179 | Which update is refused for what, and which of its parts are applied |
| FleetReservations.OtherUnitsStay | systems/operator/src/fleet_manager/src/fleet_manager_core.py:143-205 | Updating and adding change one unit, and how |
| FleetReservations.ReservationTakesOneUnit | systems/operator/src/fleet_manager/src/fleet_manager_core.py:93-118 | A reservation succeeds exactly for an available unit with a valid, unexpired certificate, and touches no other unit; a failed one changes nothing |
| FleetReservations.ReleaseFreesOneUnit | systems/operator/src/fleet_manager/src/fleet_manager_core.py:120-141 | A release succeeds exactly for an existing, certified unit not held by another operator, in any status, and frees that unit alone |
| FleetReservations.RefusedUpdateMayStick | systems/operator/src/fleet_manager/src/fleet_manager_core.py:154-179 | A refused update leaves the unit unchanged exactly when no new status was parsed before the refusal |
| FleetReservations.RefusedUpdateSticks | systems/operator/src/fleet_manager/src/fleet_manager_core.py:158-172 | Charging at level 2.0 is refused for its level, and the unit is charging |
| FleetReservations.LevelsStayInRange | systems/operator/src/fleet_manager/src/fleet_manager_core.py:166-171 | Charge levels stay between empty and full in every run that adds units so |
| FleetReservations.FleetManagerCore.AuthorizeUasOperation | systems/operator/src/fleet_manager/src/fleet_manager_core.py:45-91 | The first refusal that applies: missing unit, invalid or expired certificate, then the rule of the operation |
| FleetReservations.FleetManagerCore.ReserveUas | systems/operator/src/fleet_manager/src/fleet_manager_core.py:93-118 | Only an authorised, available unit becomes RESERVED for the mission; no other unit object changes |
| FleetReservations.FleetManagerCore.ReleaseUas | systems/operator/src/fleet_manager/src/fleet_manager_core.py:120-141 | Only an authorised release makes the unit available and unheld; no other unit object changes |
| FleetReservations.FleetManagerCore.UpdateUasState | systems/operator/src/fleet_manager/src/fleet_manager_core.py:143-179 | Applies status, level, validity and expiry in that order up to the first refused one, to that unit object alone |
| FleetReservations.FleetManagerCore.AddUas | systems/operator/src/fleet_manager/src/fleet_manager_core.py:181-205 | A new id gets a fresh, available, unheld unit; an old id is refused and keeps its unit |
| FleetReservations.FleetManagerService.ReserveUasWithValidation | systems/operator/src/fleet_manager/src/fleet_manager_service.py:234-299 | Core, counters and cache move together: a success is counted and cached, a failure is counted and leaves core and cache |
| FleetReservations.FleetManagerService.ReleaseUasWithCleanup | systems/operator/src/fleet_manager/src/fleet_manager_service.py:301-341 | Core and cache move together, and the mission the unit was released from is reported |
| FleetPurchase.PurchaseDelivers | systems/operator/src/fleet_manager/src/fleet_manager.py:402-458 | A purchase that succeeds adds exactly the requested number of new, pairwise distinct ids, the first free ones, to core and extended fleet, available, fully charged and certified as the first model of that name is, with one sale each at its price, all old entries untouched; a refused one adds nothing |
| FleetPurchase.PurchaseSucceeds | systems/operator/src/operator_clients/src/developer_client.py:255-275 | Each refusal exactly in its case: a name missing, no such developer, no such model, or too few left of the first of that name; else success |
| FleetPurchase.PurchaseTakesStock | systems/operator/src/operator_clients/src/developer_client.py:260-285 | The quantity comes off the first model of that name; nothing else in any catalogue changes |
| FleetPurchase.StockPlusUnits | systems/operator/src/operator_clients/src/developer_client.py:260-285 | Stock plus units added is conserved exactly when the quantity is not negative |
| FleetPurchase.NegativePurchaseRaisesStock | systems/operator/src/operator_clients/src/developer_client.py:268-275 | Buying -1 of a model with 5 in stock succeeds, adds nothing and leaves 6 |
| FleetPurchase.StockIsConserved | systems/operator/src/operator_clients/src/developer_client.py:260-285 | Over any run of purchases between reloads a model's stock plus the units sold of it is constant |
| FleetPurchase.NoIdIsSoldTwice | systems/operator/src/fleet_manager/src/fleet_manager.py:393-400 | Over any run of purchases, reloads included, no id is sold twice |
| FleetPurchase.NextFrom | systems/operator/src/fleet_manager/src/fleet_manager.py:393-400 | The search for a free id ends within the number of ids in use plus one, at the least free number |
| FleetPurchase.SearchIsBounded | systems/operator/src/fleet_manager/src/fleet_manager.py:393-400 | No more ids than are in use can have been found taken |
| FleetPurchase.FindModel | systems/operator/src/operator_clients/src/developer_client.py:264-266 | The first model of that name |
| FleetPurchase.FleetManager.NextUasId | systems/operator/src/fleet_manager/src/fleet_manager.py:393-400 | The unbounded loop terminates with the first free id |
| FleetPurchase.FleetManager.AddPurchasedUasToFleet | systems/operator/src/fleet_manager/src/fleet_manager.py:402-458 | The loop adds the units one at a time to core, extended fleet and history and returns their ids; nothing when the developer or model is missing |
| FleetPurchase.FleetManager.HandlePurchaseUas | systems/operator/src/fleet_manager/src/fleet_manager.py:360-391 | Stock, core, extended fleet and history move together, or the refusal of the catalogue is passed on |
| FleetPurchase.DeveloperClient.PurchaseUas | systems/operator/src/operator_clients/src/developer_client.py:255-285 | Each refusal in its case, else the stock of the first such model is reduced |
| Pricing.EveryProposalIsSafe | systems/operator/src/business_logic/src/business_logic_service.py:113-178 | For all non-negative distance, duration and cargo value a proposal is made, and every discounted price accepted for the stored price passes the margin check, roundings included |
| Pricing.ProposalMeans | systems/operator/src/business_logic/src/business_logic_service.py:143-185 | A proposal is made exactly when the minimal price plus 5 percent is a tenth above a positive cost, and then asks that price in cents |
| Pricing.SafeExactly | systems/operator/src/business_logic/src/business_logic_core.py:40-142 | For a cost in whole cents this holds exactly when the cost is none of seventeen amounts, the largest 0.58 |
| Pricing.SmallFeeWouldDo | systems/operator/src/business_logic/src/business_logic_service.py:123-141 | Any base fee from 0.59 on would do |
| Pricing.NoFeeWouldNotDo | systems/operator/src/business_logic/src/business_logic_service.py:123-141 | Without the base fee a mission exists for which it fails |
| Pricing.DiscountedOrderPasses | systems/operator/src/business_logic/src/business_logic_core.py:144-188 | An order at any accepted discount of a proposed price passes the complete check of orders |
| Pricing.OrderMeans | systems/operator/src/business_logic/src/business_logic_core.py:144-188 | An order is in order exactly when its cost is positive, its price a tenth above or more and, if discounted, at least 95 percent of a positive original price |
| Pricing.ValidMarginMeans | systems/operator/src/business_logic/src/business_logic_core.py:40-95 | A margin is valid exactly when the cost is positive and the price at least a tenth above it |
| Pricing.MarginShown | systems/operator/src/business_logic/src/business_logic_core.py:40-95 | The margin shown is the share of the price in percent to half a hundredth, and which prices and costs are objected to |
| Pricing.ReasonMeans | systems/operator/src/business_logic/src/business_logic_core.py:79-95 | Which remark is given, in terms of price and cost |
| Pricing.ValidDiscountMeans | systems/operator/src/business_logic/src/business_logic_core.py:97-124 | A discount is accepted exactly when at least 95 percent of a positive price remain |
| Pricing.MinPricePasses | systems/operator/src/business_logic/src/business_logic_core.py:126-142 | In whole cents, the minimal price passes the margin check exactly when the cost is none of eleven amounts |
| Pricing.MinPriceMeans | systems/operator/src/business_logic/src/business_logic_core.py:126-142 | The minimal price is the cost over 0.9 in whole cents; a negative cost has none |
| Pricing.TotalWithinACent | systems/operator/src/business_logic/src/business_logic_service.py:113-141 | The total is the sum of the charges, with the defaults for missing inputs, to within a cent |
| Pricing.BreakdownMeans | systems/operator/src/business_logic/src/business_logic_service.py:113-141 | Each charge and the total at the rates of the service, with the defaults for missing inputs |
| Pricing.CostGrows | systems/operator/src/business_logic/src/business_logic_service.py:113-141 | A longer, slower or more valuable mission never costs less |
| Pricing.BusinessLogicService.CreateProposal | systems/operator/src/business_logic/src/business_logic_service.py:143-185 | The proposal for the calculated cost, stored exactly when one is made |
| Pricing.Round2 | systems/operator/src/business_logic/src/business_logic_core.py:126-142 | Rounding moves an amount by at most half a cent |
| UasRegistration.NoIdIsReissued | demos/sbd-model-simple-demo/sbd-model-demo-code/entities/regulator.py:74-85 | Over any run of scenarios (launched on a copy of the saved world, which loading does not rebuild, then finished by a merge or abandoned) no registration with dash-free type and vendor gets an id issued before, in the same scenario or an earlier one, when every world launched from has counters that cover its registry and every id issued |
| UasRegistration.FreshIdIsNew | demos/sbd-model-simple-demo/sbd-model-demo-code/entities/regulator.py:74-85 | Under the same condition the id is not in the registry, so it overwrites no entry, and was never issued |
| UasRegistration.CoveringIsExact | demos/sbd-model-simple-demo/sbd-model-demo-code/entities/regulator.py:74-85 | No sequence of registrations from a world is given one of a set of ids exactly when its counters cover them |
| UasRegistration.UncoveredLaunchMayReissue | demos/sbd-model-simple-demo/sbd-model-demo-code/entities/regulator.py:74-85 | The condition is exact: no scenario launched now can be given an id issued before or on file exactly when the saved world is covered |
| UasRegistration.MergingKeepsCovered | demos/sbd-model-simple-demo/sbd-model-demo-code/sbd_demo.py:421-423 | The condition holds of every run that begins with a covered world and in which every issued id reaches a merge: the rebuild from the registry carries the counters over |
| UasRegistration.FinishCovers | demos/sbd-model-simple-demo/sbd-model-demo-code/world_state.py:113-157 | After the merge the saved world covers its registry, and all issued ids exactly when it covers those that did not reach it |
| UasRegistration.SyncCovers | demos/sbd-model-simple-demo/sbd-model-demo-code/world_state.py:96-110 | A rebuild makes every counter at least every number of a registered dash-free id, from the registry alone |
| UasRegistration.RegistrationMeans | demos/sbd-model-simple-demo/sbd-model-demo-code/entities/regulator.py:62-93 | The next number, the id and the entry of a registration; no other counter or entry moves |
| UasRegistration.MergeMeans | demos/sbd-model-simple-demo/sbd-model-demo-code/world_state.py:113-157 | After a merge the registry holds what it held, the standalone unit under its new entry, and every purchased unit with the number at its position; entries held before stay |
| UasRegistration.ParseUndoesFormat | demos/sbd-model-simple-demo/sbd-model-demo-code/world_state.py:100-109 | Parsing undoes the zero-padded id format |
| UasRegistration.ParseMeans | demos/sbd-model-simple-demo/sbd-model-demo-code/world_state.py:99-110 | Which ids are read, and as what: four dash-separated parts, the first UAS, the last a numeral |
| UasRegistration.IdsAreDistinct | demos/sbd-model-simple-demo/sbd-model-demo-code/entities/regulator.py:78-78 | Dash-free type, vendor and number can be read off an id |
| UasRegistration.DemoWorld.OnUasRegistration | demos/sbd-model-simple-demo/sbd-model-demo-code/entities/regulator.py:62-93 | Draws the next number of the counter and files the entry under the id formed from it; an incomplete request changes nothing |
| UasRegistration.DemoWorld.SyncRegistrationCounters | demos/sbd-model-simple-demo/sbd-model-demo-code/world_state.py:96-110 | The loop raises each counter to the greatest number that parses out of the registry, and no further |
| UasRegistration.DemoWorld.MergeOnboardingIntoWorld | demos/sbd-model-simple-demo/sbd-model-demo-code/world_state.py:113-157 | The standalone id overwrites, purchased ids keep existing entries, then the counters are rebuilt |
| UasRegistration.DashedIdsCollide | demos/sbd-model-simple-demo/sbd-model-demo-code/entities/regulator.py:74-85 | With dashes two registrations may share an id, the later overwriting the earlier |
| UasRegistration.DemoWorld.Launch | demos/sbd-model-simple-demo/sbd-model-demo-code/sbd_demo.py:135-245 | A scenario works on a copy that shares nothing with the saved world |
| UasRegistration.DashedIdsAreSkipped | demos/sbd-model-simple-demo/sbd-model-demo-code/world_state.py:100-103 | An id whose type or vendor has a dash is skipped by the rebuild |
| UasRegistration.MergedDashedIdIsReissued | demos/sbd-model-simple-demo/sbd-model-demo-code/world_state.py:96-110 | An id with dashes in type or vendor is issued again even after it was merged |
| UasRegistration.LoadedWithoutCounterReissues | demos/sbd-model-simple-demo/sbd-model-demo-code/world_state.py:77-86 | A saved world with an id but no counter for it is loaded as it is, and the next registration gets that id again |
| UasRegistration.AbandonedIdIsReissued | demos/sbd-model-simple-demo/sbd-model-demo-code/sbd_demo.py:418-423 | A scenario that registers and fails before its merge leaves nothing, and the next one issues the same id |
| Strings.PaddedValue | demos/sbd-model-simple-demo/sbd-model-demo-code/entities/regulator.py:78-78 | Reading a zero-padded numeral gives back the number |
| Strings.PaddedShape | demos/sbd-model-simple-demo/sbd-model-demo-code/entities/regulator.py:78-78 | A padded numeral is as wide as asked, or wider without a zero in front |
| Strings.PaddedInjective | systems/operator/src/fleet_manager/src/fleet_manager.py:397-397 | Different numbers have different zero-padded numerals |
| ReplyQueue.WaitConserves | demos/sbd-model-simple-demo/sbd-model-demo-code/base_entity.py:132-167 | On return and on time-out: final queue = initial queue + arrivals - the one returned, as multisets |
| ReplyQueue.WaitRotates | demos/sbd-model-simple-demo/sbd-model-demo-code/base_entity.py:139-167 | The returned message is the first match among those received; the queue then holds what was not received followed by all skipped messages in order |
| ReplyQueue.StaleRepliesAreSkipped | demos/sbd-model-simple-demo/sbd-model-demo-code/base_entity.py:187-209 | Waiting on a fresh id returns nothing that was in the queue before the request |
| ReplyQueue.MatchIsFound | demos/sbd-model-simple-demo/sbd-model-demo-code/base_entity.py:142-164 | With enough rounds a matching message in the queue is found |
| ReplyQueue.BaseEntity.WaitForResponse | demos/sbd-model-simple-demo/sbd-model-demo-code/base_entity.py:132-167 | The loop with its stash computes the specified outcome |
| ReplyQueue.BaseEntity.PutBack | demos/sbd-model-simple-demo/sbd-model-demo-code/base_entity.py:165-167 | The stash is appended in order |
| ReplyQueue.BaseEntity.RpcSendWait | demos/sbd-model-simple-demo/sbd-model-demo-code/base_entity.py:187-209 | One request is sent under the fresh id, then its reply is awaited |
| CompactToken.B64RoundTrip | systems/uas_dev_company/src/shared/jwt_tokens.py:18-27 | For every byte string the unpadded coding decodes to the same bytes, with 0, 1 or 2 padding signs put back, never 3 |
| CompactToken.TokenHasThreeSegments | systems/uas_dev_company/src/shared/jwt_tokens.py:42-47 | A created token splits into exactly the three segments joined |
| CompactToken.TokenVerifies | systems/uas_dev_company/src/shared/jwt_tokens.py:50-73 | Under any secret: refused when the secrets hash the signing input differently, else the same claims up to the expiry second and expired afterwards |
| CompactToken.OwnTokenVerifies | systems/uas_dev_company/src/shared/jwt_tokens.py:50-73 | Under the issuing secret a token verifies to its claims exactly until its expiry |
| CompactToken.AcceptedTokenWasSigned | systems/uas_dev_company/src/shared/jwt_tokens.py:50-73 | Whoever made it, a token is accepted exactly when the last of its three segments is the hash of the first two under the secret and the second reads as claims not expired |
| CompactToken.CodingExamples | systems/uas_dev_company/src/shared/jwt_tokens.py:18-27 | Examples of the coding, the two signs of its alphabet included |
| CompactToken.PaddedRoundTrip | systems/uas_dev_company/src/shared/jwt_tokens.py:18-27 | Decoding undoes the padded coding |

## Left out

- Broker clients, sockets, threads, HTTP handlers, databases and generated deployments: plumbing around libraries; SQL tables are maps and each service call is one step, but for the two halves of a report and a registration overtaken by other calls.
- Clocks, UUIDs and outside answers (regulator, catalogue servers, weather, bus replies): parameters of the operations; a fresh id is one not used before.
- Floating point: coordinates, distances, prices and levels are reals, so rounding of binary fractions, infinities and not-a-number values are not modelled; the rounding to cents in prices is.
- Haversine, square root and cosine: uninterpreted, with symmetry, the metric laws, the square-root law and the range of the cosine assumed only in the lemmas that name them.
- Printing and reading of numbers: an uninterpreted pair; the round trip asks of it only that reading undoes printing on the numbers of the list at hand, without a tab or line break in their texts.
- Mission planner: templates, listing, statistics, names, descriptions and metadata, and the reading of way-point dictionaries with their defaults; concurrent interleaving inside one service call (its only awaits reach no other code that changes the tables).
- Mission history: the objects are shared with the table as in the original, but no claim is made about later changes to a mission in the history.
- The bus's consumer threads and its start and stop; only the sections under the lock of the pending table are modelled, interleaved at will.
- Dispatch.Dispatcher.HandleMessage: handlers are functions from message to outcome, and an exception raised by publishing the journal is not modelled.
- Networks.CallerGetsOwnResult: assumes each request is delivered at most once and replies on the reply topic come only from dispatchers answering; the pending tables of all processes are one table, call ids being unique across them.
- ServiceComponent's built-in ping and status handlers, which bypass the guard in the original as well.
- SecurityMonitor.ExecutedCallsWereAllowed: assumes that only the monitor puts its own name into the sender field; the bus does not enforce it (`NameMustBeGenuine`). Parsing of rules from the environment and trimming of names are not modelled.
- Role checks, which precede every modelled call, and the reading of the regulator's status words, which arrive here as accepted or not.
- Certificates: incident rows, certification requests, journal entries, costs, firmware columns and hardware configuration. A crash between the two transactions of a report has the effect of a denied call.
- FleetReservations: expiry times of cached reservations, operation history and suitability scoring; the status handler's uncaught conversion error is the reason `NotANumber`.
- FleetPurchase.DeveloperClient.PurchaseUas: catalogue entries are values in a map, not shared objects, so a caller that keeps a model object and changes it is not captured; quantities are whole numbers.
- Pricing: user management, payment and tax stand-ins.
- UasRegistration.DemoWorld.MergeOnboardingIntoWorld: the certificate list and the drone-port lists; scenarios that run at the same time on one saved file; numerals outside plain decimal digits are read by an uninterpreted function; upper-casing is done before the call.
- ReplyQueue.BaseEntity.WaitForResponse: messages that arrive while the stash is being put back are not interleaved with it.
- CompactToken: JSON coding, UTF-8 and the keyed hash are uninterpreted; so is what the library makes of a segment that is not plain base64; white space beyond ASCII in `strip`.
- The MQTT variant of the bus, the web front ends, demonstration launchers, metric scripts and the operator's own copy of the monitor: the same ideas or no hard property.
