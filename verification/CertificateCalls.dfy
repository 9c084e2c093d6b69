/** The calls of certification, registration, purchase and delivery in full: what they put into the
    tables, what they leave, and when they refuse. */
module CertificateCalls {
  import opened Wrappers
  import opened Strings
  import opened SecurityGoals
  import opened CertificateLedger

  /** An accepted certification with known goals puts one active certificate on file, with the goals,
      id and signer the regulator answers where it answers any, else the firmware's goals and the
      defaults; every other certificate and every drone row stays. Any other changes nothing. */
  lemma CertificationMeans(l: Ledger, firmwareId: string, firmware: Option<Goals>, answer: Option<CertifyAnswer>)
    ensures var (l', result) := CertifyStep(l, firmwareId, firmware, answer);
            && (result == Err(FirmwareNotFound) <==> firmware.None?)
            && (result == Err(RejectedByRegulator) <==> firmware.Some? && answer.Some? && !answer.value.accepted)
            && (result.Err? ==> l' == l)
            && (firmware.Some? && (answer.Some? ==> answer.value.accepted) ==>
                  var goals := if answer.Some? && answer.value.goals != [] then answer.value.goals else firmware.value;
                  var id := if answer.Some? && answer.value.certificateId != "" then answer.value.certificateId
                            else "cert-drone-" + firmwareId;
                  var signer := if answer.Some? && answer.value.signedBy != "" then answer.value.signedBy
                                else "systems.regulator";
                  && (result.Ok? <==>
                        && firmwareId != "" && (exists g <- goals :: Strip(g) != "")
                        && (forall g <- goals :: BlankOrGoal(g)))
                  && (result.Ok? ==>
                        var cert := Certificate(firmwareId, goals, signer, Active, goals);
                        result.value == id && l' == Ledger(l.certificates[id := cert], l.drones)))
  {
    hide Normalize, Strip;
    if firmware.Some? {
      NormalFormExists(firmware.value, false);
    }
    if answer.Some? {
      NormalFormExists(answer.value.goals, false);
    }
  }

  predicate Filed(l: Ledger, r: DroneRequest) {
    r.certificateId in l.certificates && l.certificates[r.certificateId].firmwareId == r.firmwareId
  }

  /** What stands in the way of a registration, the first of it. */
  ghost function Obstacle(l: Ledger, r: DroneRequest, known: bool, answer: Option<RegisterAnswer>): Option<Failure> {
    if exists g <- r.goals :: !BlankOrGoal(g) then Some(InvalidGoals)
    else if !Filed(l, r) then Some(NoCertificate)
    else if l.certificates[r.certificateId].standing == Revoked then Some(CertificateRevoked)
    else if answer == None && exists g <- r.goals ::
        Strip(g) != "" && Strip(g) !in l.certificates[r.certificateId].effectiveGoals then Some(GoalsNotAllowed)
    else if !known then Some(FirmwareNotFound)
    else if "" in {r.serial, r.droneType, r.firmwareId, r.certificateId} || r.price < 0.0 then Some(InvalidDrone)
    else if answer.Some? && !answer.value.accepted then Some(RejectedByRegulator)
    else if r.serial in l.drones then Some(SerialTaken)
    else None
  }

  lemma GoalsAllowedMeans(goals: Goals, effective: Goals, regulatorPresent: bool)
    requires Normalize(goals, true).Some?
    ensures GoalsAllowed(Normalize(goals, true).value, effective, regulatorPresent)
       <==> regulatorPresent || forall g <- goals :: Strip(g) == "" || Strip(g) in effective
  {
    NormalFormMeans(goals, true);
    hide Normalize, Strip;
  }

  /** A registration fails exactly when something stands in its way, for the first such reason, and
      then changes nothing. */
  lemma RegistrationFails(l: Ledger, r: DroneRequest, known: bool, answer: Option<RegisterAnswer>)
    ensures var (l', result) := RegisterStep(l, r, known, answer);
            var failure := Obstacle(l, r, known, answer);
            && (result.Err? <==> failure.Some?)
            && (result.Err? ==> l' == l && failure == Some(result.error))
  {
    NormalFormExists(r.goals, true);
    if Normalize(r.goals, true).Some? && Filed(l, r) {
      GoalsAllowedMeans(r.goals, l.certificates[r.certificateId].effectiveGoals, answer.Some?);
    }
    hide Normalize, Strip, GoalsAllowed, BlankOrGoal;
  }

  /** A registration that succeeds adds one row: the goals chosen in normal form, the number and version
      the regulator answers or the local ones, nobody's, and with a copy of the certificate. */
  lemma RegistrationMeans(l: Ledger, r: DroneRequest, known: bool, answer: Option<RegisterAnswer>)
    requires RegisterStep(l, r, known, answer).1.Ok?
    ensures r.certificateId in l.certificates && Normalize(r.goals, true).Some?
    ensures var (l', result) := RegisterStep(l, r, known, answer);
            var cert := l.certificates[r.certificateId];
            var id := if answer.Some? then answer.value.registrationId else "local-" + r.serial;
            var version := if answer.None? || answer.value.version == 0 then 1 else answer.value.version;
            && result.value == id && l'.certificates == l.certificates
            && l'.drones == l.drones[r.serial := Drone(
                 r.firmwareId, r.certificateId, Normalize(r.goals, true).value, r.price, Available,
                 id, RegisteredByRegulator, version,
                 "", "", "none", "", "developer", cert.standing, cert.effectiveGoals, cert.goals)]
  {
    hide Normalize, GoalsAllowed;
  }

  /** Buying and delivering rewrite one row, and only these columns of it. */
  lemma SaleMeans(l: Ledger, serial: string, operator: string, dest: string, version: int, goals: Option<Goals>,
                  status: string, at: string, responsibility: string)
    requires serial in l.drones
    ensures var d := l.drones[serial];
            && PurchaseStep(l, serial, operator, dest, false, version, goals)
               == l.(drones := l.drones[serial := d.(sale := Sold, owner := operator, destination := dest)])
            && PurchaseStep(l, serial, operator, dest, true, version, goals)
               == l.(drones := l.drones[serial := d.(
                    sale := SoldReregistered, owner := operator, destination := dest, registrationVersion := version,
                    deliveryStatus := if dest == "" then "none" else "pending_delivery", responsibility := "developer",
                    goals := if goals == None then d.goals else goals.value)])
            && DeliveryStep(l, serial, status, at, responsibility)
               == l.(drones := l.drones[serial := d.(deliveryStatus := status, deliveredAt := at,
                                                     responsibility := responsibility)])
  {
  }

  /** A report over a link fails for goals without a normal form, and, when there was a decision, for a
      registry call that was denied or not answered; a denied one leaves the drones as they were. */
  lemma ReportAnswers(l: Ledger, firmwareId: string, decision: Option<Decision>, link: Link)
    ensures var (l', result) := ReportOver(l, firmwareId, decision, link);
            var bad := && decision.Some? && decision.value.kind == "update_security_goals"
                       && exists g <- decision.value.effectiveGoals :: !BlankOrGoal(g);
            && (result == Err(InvalidGoals) <==> bad)
            && (result == Err(RegistryUnreachable) <==> !bad && decision.Some? && link != Through)
            && (result.Ok? <==> !bad && (decision.None? || link == Through))
            && (bad || decision.None? ==> l' == l)
            && (decision.Some? ==> l'.certificates == ReportStep(l, firmwareId, decision).0.certificates)
            && (decision.Some? ==> l'.drones == if link == Denied then l.drones
                                                else ReportStep(l, firmwareId, decision).0.drones)
  {
    if decision.Some? {
      NormalFormExists(decision.value.effectiveGoals, true);
    }
    hide Normalize, BlankOrGoal;
  }
}
