/** The certificate table and the drone table, in two different services, as one transition
    system: certification, registration, vulnerability reports, purchase and delivery. A report
    reaches the drone table by a call through the monitor, which may be denied, be answered too
    late, or arrive only after the report has failed. */
module CertificateLedger {
  import opened Wrappers
  import opened SecurityGoals

  datatype Standing = Active | Revoked

  datatype Certificate = Certificate(
    firmwareId: string, goals: Goals, signedBy: string, standing: Standing, effectiveGoals: Goals)

  datatype Registration = RegisteredByRegulator | RegistrationRevoked

  datatype Sale = Available | Sold | SoldReregistered

  /** A drone row, with its cached copy of the certificate's standing and goals. */
  datatype Drone = Drone(
    firmwareId: string, certificateId: string, goals: Goals, price: real, sale: Sale,
    registrationId: string, registration: Registration, registrationVersion: int,
    owner: string, destination: string, deliveryStatus: string, deliveredAt: string, responsibility: string,
    certificateStanding: Standing, certificateEffectiveGoals: Goals, certificateGoals: Goals)

  datatype Ledger = Ledger(certificates: map<string, Certificate>, drones: map<string, Drone>)

  /** The regulator's decision on a vulnerable firmware; an absent goal list is empty. */
  datatype Decision = Decision(kind: string, effectiveGoals: Goals)

  const REVOKE := "revoke_certificate"
  const UPDATE_GOALS := "update_security_goals"

  datatype CertifyAnswer = CertifyAnswer(accepted: bool, certificateId: string, signedBy: string, goals: Goals)

  datatype RegisterAnswer = RegisterAnswer(accepted: bool, registrationId: string, version: int)

  datatype DroneRequest = DroneRequest(
    serial: string, droneType: string, firmwareId: string, certificateId: string, goals: Goals, price: real)

  datatype Failure =
    | FirmwareNotFound | RejectedByRegulator | InvalidCertificate | NoCertificate | CertificateRevoked
    | GoalsNotAllowed | InvalidDrone | SerialTaken | InvalidGoals | RegistryUnreachable

  /** What becomes of the call to the registry: it is answered, it is lost or refused on its way, or
      only its answer is lost. */
  datatype Link = Through | Denied | AnswerLost

  // ----- the steps

  predicate ValidGoals(goals: Goals) {
    goals != [] && Normalize(goals, false).Some?
  }

  function DefaultCertificateId(firmwareId: string): string {
    "cert-drone-" + firmwareId
  }

  /** What certification would issue: id and certificate, or why not. */
  function Issue(firmwareId: string, firmware: Option<Goals>, answer: Option<CertifyAnswer>)
    : Result<(string, Certificate), Failure>
  {
    if firmware.None? then Err(FirmwareNotFound)
    else if answer.Some? && !answer.value.accepted then Err(RejectedByRegulator)
    else
      var a := if answer.Some? then answer.value else CertifyAnswer(true, "", "", []);
      var id := if a.certificateId != "" then a.certificateId else DefaultCertificateId(firmwareId);
      var goals := if a.goals != [] then a.goals else firmware.value;
      var signedBy := if a.signedBy != "" then a.signedBy else "systems.regulator";
      if firmwareId == "" || !ValidGoals(goals) then Err(InvalidCertificate)
      else Ok((id, Certificate(firmwareId, goals, signedBy, Active, goals)))
  }

  /** Certifying inserts a certificate or replaces the one with the same id. */
  function CertifyStep(l: Ledger, firmwareId: string, firmware: Option<Goals>, answer: Option<CertifyAnswer>)
    : (Ledger, Result<string, Failure>)
  {
    match Issue(firmwareId, firmware, answer)
    case Err(e) => (l, Err(e))
    case Ok((id, cert)) => (l.(certificates := l.certificates[id := cert]), Ok(id))
  }

  /** The certificate on file under this id for this firmware. */
  function Snapshot(certificates: map<string, Certificate>, id: string, firmwareId: string): Option<Certificate> {
    if id in certificates && certificates[id].firmwareId == firmwareId then Some(certificates[id]) else None
  }

  predicate ValidDrone(r: DroneRequest) {
    r.serial != "" && r.droneType != "" && r.firmwareId != "" && r.certificateId != "" && r.price >= 0.0
  }

  /** Registering reads the certificate from the other service, then goes on with what it read. */
  function RegisterStep(l: Ledger, r: DroneRequest, firmwareKnown: bool, answer: Option<RegisterAnswer>)
    : (Ledger, Result<string, Failure>)
  {
    RegisterOn(l, Snapshot(l.certificates, r.certificateId, r.firmwareId), r, firmwareKnown, answer)
  }

  /** It normalises the chosen goals before anything else, and stores the normal form. */
  function RegisterOn(l: Ledger, cert: Option<Certificate>, r: DroneRequest, firmwareKnown: bool,
                      answer: Option<RegisterAnswer>)
    : (Ledger, Result<string, Failure>)
  {
    var chosen := Normalize(r.goals, true);
    if chosen.None? then (l, Err(InvalidGoals))
    else if cert.None? then (l, Err(NoCertificate))
    else if cert.value.standing.Revoked? then (l, Err(CertificateRevoked))
    else if !GoalsAllowed(chosen.value, cert.value.effectiveGoals, answer.Some?) then (l, Err(GoalsNotAllowed))
    else if !firmwareKnown then (l, Err(FirmwareNotFound))
    else if !ValidDrone(r) then (l, Err(InvalidDrone))
    else if answer.Some? && !answer.value.accepted then (l, Err(RejectedByRegulator))
    else if r.serial in l.drones then (l, Err(SerialTaken))
    else
      var registrationId := if answer.Some? then answer.value.registrationId else "local-" + r.serial;
      var version := if answer.Some? && answer.value.version != 0 then answer.value.version else 1;
      var drone := Drone(r.firmwareId, r.certificateId, chosen.value, r.price, Available,
                         registrationId, RegisteredByRegulator, version,
                         "", "", "none", "", "developer",
                         cert.value.standing, cert.value.effectiveGoals, cert.value.goals);
      (l.(drones := l.drones[r.serial := drone]), Ok(registrationId))
  }

  function RevokeCertificates(certs: map<string, Certificate>, firmwareId: string): map<string, Certificate> {
    map id | id in certs :: if certs[id].firmwareId == firmwareId then certs[id].(standing := Revoked) else certs[id]
  }

  function RevokeDrones(drones: map<string, Drone>, firmwareId: string): map<string, Drone> {
    map s | s in drones ::
      if drones[s].firmwareId == firmwareId
      then drones[s].(registration := RegistrationRevoked, certificateStanding := Revoked) else drones[s]
  }

  function RegoalCertificates(certs: map<string, Certificate>, firmwareId: string, goals: Goals)
    : map<string, Certificate>
  {
    map id | id in certs ::
      if certs[id].firmwareId == firmwareId then certs[id].(effectiveGoals := goals) else certs[id]
  }

  function RegoalDrone(d: Drone, goals: Goals): Drone {
    d.(goals := Narrow(d.goals, goals), certificateEffectiveGoals := goals)
  }

  function RegoalDrones(drones: map<string, Drone>, firmwareId: string, goals: Goals): map<string, Drone> {
    map s | s in drones :: if drones[s].firmwareId == firmwareId then RegoalDrone(drones[s], goals) else drones[s]
  }

  /** Both halves of a report: the regulator's decision reaches the certificates, then the drones.
      If the goals are refused the first transaction is rolled back and the second never starts. */
  function ReportStep(l: Ledger, firmwareId: string, decision: Option<Decision>)
    : (Ledger, Result<(), Failure>)
  {
    if decision.None? then (l, Ok(()))
    else if decision.value.kind == REVOKE then
      (Ledger(RevokeCertificates(l.certificates, firmwareId), RevokeDrones(l.drones, firmwareId)), Ok(()))
    else if decision.value.kind == UPDATE_GOALS && decision.value.effectiveGoals != [] then
      match Normalize(decision.value.effectiveGoals, true)
      case None => (l, Err(InvalidGoals))
      case Some(goals) =>
        (Ledger(RegoalCertificates(l.certificates, firmwareId, goals), RegoalDrones(l.drones, firmwareId, goals)),
         Ok(()))
    else (l, Ok(()))
  }

  /** The half the certification service commits on its own. */
  function CertificateHalf(l: Ledger, firmwareId: string, decision: Option<Decision>): Ledger {
    Ledger(ReportStep(l, firmwareId, decision).0.certificates, l.drones)
  }

  /** The half the registry applies whenever the call reaches it. */
  function RegistryHalf(l: Ledger, firmwareId: string, decision: Decision): Ledger {
    Ledger(l.certificates, ReportStep(l, firmwareId, Some(decision)).0.drones)
  }

  /** A report as it is carried out: the certificates are committed before the registry is called. */
  function ReportOver(l: Ledger, firmwareId: string, decision: Option<Decision>, link: Link)
    : (Ledger, Result<(), Failure>)
  {
    var (full, result) := ReportStep(l, firmwareId, decision);
    if decision.None? || result.Err? || link.Through? then (full, result)
    else if link.Denied? then (CertificateHalf(l, firmwareId, decision), Err(RegistryUnreachable))
    else (full, Err(RegistryUnreachable))
  }

  function PurchaseStep(l: Ledger, serial: string, operator: string, dest: string, regulatorMode: bool,
                        version: int, goals: Option<Goals>): Ledger {
    if serial !in l.drones then l
    else
      var d := l.drones[serial];
      var d' :=
        if !regulatorMode then d.(sale := Sold, owner := operator, destination := dest)
        else d.(sale := SoldReregistered, owner := operator, destination := dest, registrationVersion := version,
                deliveryStatus := if dest != "" then "pending_delivery" else "none", responsibility := "developer",
                goals := if goals.Some? then goals.value else d.goals);
      l.(drones := l.drones[serial := d'])
  }

  function DeliveryStep(l: Ledger, serial: string, status: string, at: string, responsibility: string): Ledger {
    if serial !in l.drones then l
    else l.(drones := l.drones[serial := l.drones[serial].(deliveryStatus := status, deliveredAt := at,
                                                           responsibility := responsibility)])
  }

  function AvailableDrones(drones: map<string, Drone>): set<string> {
    set s | s in drones && drones[s].sale.Available? && drones[s].registration.RegisteredByRegulator?
            && drones[s].certificateStanding.Active?
  }

  /** `Overtaken` is a registration between whose reading of the certificate and insertion of the row
      other calls were carried out; `LateArrival` is the registry half of a report that has failed. */
  datatype Call =
    | Certify(firmwareId: string, firmware: Option<Goals>, certifyAnswer: Option<CertifyAnswer>)
    | Register(request: DroneRequest, firmwareKnown: bool, registerAnswer: Option<RegisterAnswer>)
    | Overtaken(
        request: DroneRequest, seen: Option<Certificate>, firmwareKnown: bool, registerAnswer: Option<RegisterAnswer>)
    | Report(firmwareId: string, decision: Option<Decision>, link: Link)
    | LateArrival(firmwareId: string, lateDecision: Decision)
    | Purchase(serial: string, operator: string, dest: string, regulatorMode: bool, version: int, goals: Option<Goals>)
    | Delivery(serial: string, status: string, at: string, responsibility: string)

  function Step(l: Ledger, c: Call): Ledger {
    match c
    case Certify(f, fw, a) => CertifyStep(l, f, fw, a).0
    case Register(r, known, a) => RegisterStep(l, r, known, a).0
    case Overtaken(r, seen, known, a) => RegisterOn(l, seen, r, known, a).0
    case Report(f, d, link) => ReportOver(l, f, d, link).0
    case LateArrival(f, d) => RegistryHalf(l, f, d)
    case Purchase(s, op, dest, mode, v, g) => PurchaseStep(l, s, op, dest, mode, v, g)
    case Delivery(s, st, at, r) => DeliveryStep(l, s, st, at, r)
  }

  function Run(calls: seq<Call>): Ledger {
    if calls == [] then Ledger(map[], map[])
    else Step(Run(calls[..|calls| - 1]), calls[|calls| - 1])
  }

  // ----- revocation

  predicate RowRevoked(d: Drone) {
    d.registration.RegistrationRevoked? && d.certificateStanding.Revoked?
  }

  /** The certificate this drone was registered under, if it is still on file for its firmware. */
  function Backing(l: Ledger, serial: string): Option<Certificate>
    requires serial in l.drones
  {
    Snapshot(l.certificates, l.drones[serial].certificateId, l.drones[serial].firmwareId)
  }

  predicate IsMissed(l: Ledger, serial: string)
    requires serial in l.drones
  {
    Backing(l, serial).Some? && Backing(l, serial).value.standing.Revoked? && !RowRevoked(l.drones[serial])
  }

  /** The drones whose certificate record is revoked while their own row is not. */
  function Missed(l: Ledger): set<string> {
    set s | s in l.drones && IsMissed(l, s)
  }

  function OfFirmware(l: Ledger, firmwareId: string): set<string> {
    set s | s in l.drones && l.drones[s].firmwareId == firmwareId
  }

  /** The drones of a firmware a lost revocation would miss. */
  function Exposed(l: Ledger, firmwareId: string): set<string> {
    set s | s in l.drones && l.drones[s].firmwareId == firmwareId && Backing(l, s).Some? && !RowRevoked(l.drones[s])
  }

  predicate Revoking(decision: Option<Decision>) {
    decision.Some? && decision.value.kind == REVOKE
  }

  /** The call revokes certificates and does not reach the drones. */
  predicate Cuts(c: Call) {
    c.Report? && Revoking(c.decision) && c.link.Denied?
  }

  /** The call brings a revocation to the drones. */
  predicate Reaches(c: Call) {
    || (c.Report? && Revoking(c.decision) && !c.link.Denied?)
    || (c.LateArrival? && c.lateDecision.kind == REVOKE)
  }

  /** The certificate id the call issues. */
  function Issued(c: Call): Option<string> {
    if c.Certify? then
      match Issue(c.firmwareId, c.firmware, c.certifyAnswer)
      case Ok((id, _)) => Some(id)
      case Err(_) => None
    else None
  }

  function Under(l: Ledger, id: string): set<string> {
    set s | s in l.drones && l.drones[s].certificateId == id
  }

  /** The call inserts a row under a certificate that has been revoked since it was read. */
  predicate Stale(l: Ledger, c: Call) {
    && c.Overtaken? && RegisterOn(l, c.seen, c.request, c.firmwareKnown, c.registerAnswer).1.Ok?
    && var cert := Snapshot(l.certificates, c.request.certificateId, c.request.firmwareId);
       cert.Some? && cert.value.standing.Revoked?
  }

  /** A revocation cut short adds the drones it exposes and a stale registration its drone; a
      revocation that reaches the drones clears its firmware, and reissuing a certificate id clears
      the drones under it. */
  function MissedAfter(l: Ledger, c: Call): set<string> {
    if Cuts(c) then Missed(l) + Exposed(l, c.firmwareId)
    else if Stale(l, c) then Missed(l) + {c.request.serial}
    else if Reaches(c) then Missed(l) - OfFirmware(l, c.firmwareId)
    else if Issued(c).Some? then Missed(l) - Under(l, Issued(c).value)
    else Missed(l)
  }

  lemma CertifyMisses(l: Ledger, c: Call)
    requires c.Certify?
    ensures Missed(Step(l, c)) == MissedAfter(l, c)
  {
  }

  lemma RegisterMisses(l: Ledger, c: Call)
    requires c.Register? || c.Overtaken?
    ensures Missed(Step(l, c)) == MissedAfter(l, c)
  {
    hide Normalize, GoalsAllowed;
  }

  lemma ReportMisses(l: Ledger, c: Call)
    requires c.Report?
    ensures Missed(Step(l, c)) == MissedAfter(l, c)
  {
    hide Normalize, Narrow, Issue, RegisterOn, PurchaseStep, DeliveryStep, CertifyStep;
    if Revoking(c.decision) {
      RevocationMisses(l, c);
    }
  }

  lemma RevocationMisses(l: Ledger, c: Call)
    requires c.Report? && Revoking(c.decision)
    ensures Missed(Step(l, c)) == MissedAfter(l, c)
  {
    hide Narrow, Issue, RegisterOn, PurchaseStep, DeliveryStep, CertifyStep, RegoalCertificates, RegoalDrones;
  }

  lemma LateArrivalMisses(l: Ledger, c: Call)
    requires c.LateArrival?
    ensures Missed(Step(l, c)) == MissedAfter(l, c)
  {
  }

  lemma SaleMisses(l: Ledger, c: Call)
    requires c.Purchase? || c.Delivery?
    ensures Missed(Step(l, c)) == MissedAfter(l, c)
  {
  }

  /** Exactly what a call does to the drones missed. */
  lemma StepMisses(l: Ledger, c: Call)
    ensures Missed(Step(l, c)) == MissedAfter(l, c)
  {
    hide Step, Missed, MissedAfter;
    match c
    case Certify(_, _, _) => CertifyMisses(l, c);
    case Register(_, _, _) => RegisterMisses(l, c);
    case Overtaken(_, _, _, _) => RegisterMisses(l, c);
    case Report(_, _, _) => ReportMisses(l, c);
    case LateArrival(_, _) => LateArrivalMisses(l, c);
    case _ => SaleMisses(l, c);
  }

  lemma InsertedFirmware(l: Ledger, c: Call)
    requires Stale(l, c)
    ensures c.request.serial !in l.drones && c.request.serial in Step(l, c).drones
    ensures Step(l, c).drones[c.request.serial].firmwareId == c.request.firmwareId
  {
  }

  lemma RowKeepsItsFirmware(l: Ledger, c: Call, s: string)
    requires s in l.drones
    ensures s in Step(l, c).drones && Step(l, c).drones[s].firmwareId == l.drones[s].firmwareId
  {
  }

  /** The firmwares with a revocation that did not reach the drones, or with a registration that was
      overtaken, and with no revocation that has reached the drones since. */
  function Open(calls: seq<Call>): set<string> {
    if calls == [] then {} else OpenAfter(Open(calls[..|calls| - 1]), calls[|calls| - 1])
  }

  function OpenAfter(open: set<string>, c: Call): set<string> {
    if Cuts(c) then open + {c.firmwareId}
    else if c.Overtaken? then open + {c.request.firmwareId}
    else if Reaches(c) then open - {c.firmwareId}
    else open
  }

  /** Revocations reached all drones but those of the open firmwares. */
  ghost predicate RevocationsReachDrones(l: Ledger, open: set<string>) {
    forall s <- l.drones | Backing(l, s).Some? && Backing(l, s).value.standing.Revoked? ::
      RowRevoked(l.drones[s]) || l.drones[s].firmwareId in open
  }

  lemma MissedMeans(l: Ledger, open: set<string>)
    ensures RevocationsReachDrones(l, open) <==> forall s <- Missed(l) :: l.drones[s].firmwareId in open
  {
    hide Backing, RowRevoked;
    forall s | s in l.drones ensures s in Missed(l) <==> IsMissed(l, s) {
    }
  }

  lemma StepKeepsRevocations(l: Ledger, c: Call, open: set<string>)
    requires RevocationsReachDrones(l, open)
    ensures RevocationsReachDrones(Step(l, c), OpenAfter(open, c))
  {
    StepMisses(l, c);
    MissedMeans(l, open);
    MissedMeans(Step(l, c), OpenAfter(open, c));
    hide Step, RowRevoked, Backing, RevocationsReachDrones;
    forall s | s in Missed(Step(l, c))
      ensures s in Step(l, c).drones && Step(l, c).drones[s].firmwareId
           == if s in l.drones then l.drones[s].firmwareId else c.request.firmwareId
    {
      assert s in MissedAfter(l, c);
      if s in l.drones {
        RowKeepsItsFirmware(l, c, s);
      } else {
        InsertedFirmware(l, c);
      }
    }
  }

  /** In every run, a drone whose certificate record is revoked has both its cached statuses revoked,
      unless the last revocation of its firmware did not reach the registry, or a registration for the
      firmware was overtaken since. */
  lemma {:induction false} RevokedCertificatesReachDrones(calls: seq<Call>)
    ensures RevocationsReachDrones(Run(calls), Open(calls))
  {
    if calls != [] {
      var n := |calls| - 1;
      RevokedCertificatesReachDrones(calls[..n]);
      StepKeepsRevocations(Run(calls[..n]), calls[n], Open(calls[..n]));
    }
  }

  /** The call is not a denied revocation of a firmware with drones still to revoke, nor does it put a
      drone under a certificate revoked in the meantime. */
  predicate Harmless(l: Ledger, c: Call) {
    (Cuts(c) ==> Exposed(l, c.firmwareId) == {}) && !Stale(l, c)
  }

  ghost predicate ReachedThroughout(calls: seq<Call>) {
    forall k :: 0 <= k <= |calls| ==> RevocationsReachDrones(Run(calls[..k]), {})
  }

  ghost predicate HarmlessThroughout(calls: seq<Call>) {
    forall k :: 0 <= k < |calls| ==> Harmless(Run(calls[..k]), calls[k])
  }

  lemma ReachedPrefix(calls: seq<Call>)
    requires calls != []
    ensures ReachedThroughout(calls)
       <==> ReachedThroughout(calls[..|calls| - 1]) && RevocationsReachDrones(Run(calls), {})
  {
    hide Run, RevocationsReachDrones;
    var before := calls[..|calls| - 1];
    assert calls[..|calls|] == calls;
    forall k | 0 <= k < |calls| ensures before[..k] == calls[..k] {
    }
  }

  lemma HarmlessPrefix(calls: seq<Call>)
    requires calls != []
    ensures var n := |calls| - 1;
            HarmlessThroughout(calls) <==> HarmlessThroughout(calls[..n]) && Harmless(Run(calls[..n]), calls[n])
  {
    hide Run, Harmless;
    var before := calls[..|calls| - 1];
    forall k | 0 <= k < |before| ensures before[..k] == calls[..k] && before[k] == calls[k] {
    }
  }

  /** Revocations reach all drones throughout a run exactly when no revocation was denied while the
      firmware had a drone with a certificate on file and an unrevoked row, and no drone was
      inserted under a certificate revoked since it was read. */
  lemma {:induction false} RevocationsReachExactly(calls: seq<Call>)
    ensures ReachedThroughout(calls) <==> HarmlessThroughout(calls)
  {
    hide RevocationsReachDrones, Harmless, Step;
    if calls == [] {
      NothingMissedAtFirst();
    } else {
      var n := |calls| - 1;
      ReachedPrefix(calls);
      HarmlessPrefix(calls);
      RevocationsReachExactly(calls[..n]);
      assert ReachedThroughout(calls[..n]) ==> RevocationsReachDrones(Run(calls[..n]), {}) by {
        assert calls[..n][..n] == calls[..n];
      }
      if RevocationsReachDrones(Run(calls[..n]), {}) {
        HarmlessExactly(Run(calls[..n]), calls[n]);
      }
    }
  }

  lemma NothingMissedAtFirst()
    ensures RevocationsReachDrones(Run([]), {})
  {
  }

  lemma HarmlessExactly(l: Ledger, c: Call)
    requires RevocationsReachDrones(l, {})
    ensures RevocationsReachDrones(Step(l, c), {}) <==> Harmless(l, c)
  {
    StepMisses(l, c);
    MissedMeans(l, {});
    MissedMeans(Step(l, c), {});
  }

  /** No call un-revokes a drone row, certifying the firmware again included. */
  lemma RevokedRowStays(l: Ledger, c: Call, s: string)
    requires s in l.drones && RowRevoked(l.drones[s])
    ensures s in Step(l, c).drones && RowRevoked(Step(l, c).drones[s])
  {
  }

  /** Revocation of a drone row is permanent: in every continuation of a run the row stays revoked
      and the drone is never offered again. */
  lemma {:induction false} RevocationIsPermanent(calls: seq<Call>, more: seq<Call>, s: string)
    requires s in Run(calls).drones && RowRevoked(Run(calls).drones[s])
    ensures var l := Run(calls + more);
            s in l.drones && RowRevoked(l.drones[s]) && s !in AvailableDrones(l.drones)
  {
    hide Step;
    if more == [] {
      assert calls + more == calls;
    } else {
      var n := |more| - 1;
      RevocationIsPermanent(calls, more[..n], s);
      assert (calls + more)[..|calls| + n] == calls + more[..n];
      RevokedRowStays(Run(calls + more[..n]), more[n], s);
    }
  }

  /** A drone on offer is backed by no revoked certificate, but for the same exceptions. */
  lemma {:induction false} AvailableIsNotRevoked(calls: seq<Call>, s: string)
    ensures var l := Run(calls);
            s in AvailableDrones(l.drones) ==>
              Backing(l, s).None? || Backing(l, s).value.standing.Active? || l.drones[s].firmwareId in Open(calls)
  {
    RevokedCertificatesReachDrones(calls);
  }

  /** The failed call, should it arrive after all, makes up for the loss: with it both halves have
      taken effect as if at once. */
  lemma LateArrivalCompletes(l: Ledger, firmwareId: string, decision: Decision)
    ensures var cut := Step(l, Report(firmwareId, Some(decision), Denied));
            Step(cut, LateArrival(firmwareId, decision)) == ReportStep(l, firmwareId, Some(decision)).0
  {
  }

  /** So does reporting again, with the same decision. */
  lemma NewReportCompletes(l: Ledger, firmwareId: string, decision: Decision, link: Link)
    requires !link.Denied?
    ensures var cut := Step(l, Report(firmwareId, Some(decision), Denied));
            Step(cut, Report(firmwareId, Some(decision), link)) == ReportStep(l, firmwareId, Some(decision)).0
  {
    hide Narrow;
    if decision.kind == REVOKE {
      var certs := RevokeCertificates(l.certificates, firmwareId);
      assert RevokeCertificates(certs, firmwareId) == certs;
    } else if decision.kind == UPDATE_GOALS && Normalize(decision.effectiveGoals, true).Some? {
      var goals := Normalize(decision.effectiveGoals, true).value;
      var certs := RegoalCertificates(l.certificates, firmwareId, goals);
      assert RegoalCertificates(certs, firmwareId, goals) == certs;
    }
  }

  /** A run in which a denied revocation leaves a drone with a revoked certificate on offer. */
  lemma DeniedRevocationStaysOnOffer(g: Goals)
    requires g != [] && Normalize(g, true) == Some(g)
    ensures var l := Run([Certify("fw", Some(g), None),
                          Register(DroneRequest("s", "t", "fw", "cert-drone-fw", g, 0.0), true, None),
                          Report("fw", Some(Decision(REVOKE, [])), Denied)]);
            "s" in AvailableDrones(l.drones) && Backing(l, "s").Some? && Backing(l, "s").value.standing.Revoked?
  {
    hide Normalize;
    var certify := Certify("fw", Some(g), None);
    var register := Register(DroneRequest("s", "t", "fw", "cert-drone-fw", g, 0.0), true, None);
    var report := Report("fw", Some(Decision(REVOKE, [])), Denied);
    var calls := [certify, register, report];
    assert calls[..2] == [certify, register] && calls[..2][..1] == [certify] && calls[..2][..1][..0] == [];
    SoldUnderGoals(g);
    assert Run(calls) == Step(Run([certify, register]), report);
  }

  lemma IssuedForGoals(g: Goals)
    requires g != [] && Normalize(g, true) == Some(g)
    ensures Issue("fw", Some(g), None) == Ok(("cert-drone-fw", Certificate("fw", g, "systems.regulator", Active, g)))
  {
    assert DefaultCertificateId("fw") == "cert-drone-fw";
  }

  /** Certifying and then registering with the goals certified puts one drone on offer. */
  lemma SoldUnderGoals(g: Goals)
    requires g != [] && Normalize(g, true) == Some(g)
    ensures var cert := Certificate("fw", g, "systems.regulator", Active, g);
            Run([Certify("fw", Some(g), None),
                 Register(DroneRequest("s", "t", "fw", "cert-drone-fw", g, 0.0), true, None)])
            == Ledger(map["cert-drone-fw" := cert],
                      map["s" := Drone("fw", "cert-drone-fw", g, 0.0, Available, "local-s", RegisteredByRegulator, 1,
                                       "", "", "none", "", "developer", Active, g, g)])
  {
    hide Normalize;
    var certify := Certify("fw", Some(g), None);
    var register := Register(DroneRequest("s", "t", "fw", "cert-drone-fw", g, 0.0), true, None);
    assert [certify, register][..1] == [certify] && [certify][..0] == [];
    var cert := Certificate("fw", g, "systems.regulator", Active, g);
    IssuedForGoals(g);
    assert Run([certify]) == Ledger(map["cert-drone-fw" := cert], map[]);
    assert "local-" + "s" == "local-s";
  }

  // ----- what is on offer

  /** A registration that succeeds puts exactly that drone on offer, backed by an active certificate
      its cached copy matches; one that fails changes nothing. */
  lemma RegistrationOffers(l: Ledger, r: DroneRequest, known: bool, answer: Option<RegisterAnswer>)
    ensures var (l', result) := RegisterStep(l, r, known, answer);
            && (result.Err? ==> l' == l)
            && (result.Ok? ==>
                  && r.serial !in l.drones && r.serial in l'.drones
                  && AvailableDrones(l'.drones) == AvailableDrones(l.drones) + {r.serial}
                  && Backing(l', r.serial).Some? && Backing(l', r.serial).value.standing.Active?
                  && CopyMatches(l', r.serial))
  {
    var (l', result) := RegisterStep(l, r, known, answer);
    if result.Ok? {
      assert forall s :: s in AvailableDrones(l'.drones) <==> s in AvailableDrones(l.drones) || s == r.serial;
    }
  }

  /** A purchase takes one drone off offer, in either mode; a delivery changes nothing on offer; a
      revocation that reaches the drones takes off exactly those of the firmware; one that does not,
      and any other decision, leave the offer. */
  lemma OfferAfterwards(l: Ledger, c: Call)
    requires c.Purchase? || c.Delivery? || c.Report? || c.LateArrival?
    ensures var offered, after := AvailableDrones(l.drones), AvailableDrones(Step(l, c).drones);
            && (c.Purchase? ==> after == offered - {c.serial})
            && (c.Delivery? ==> after == offered)
            && (c.Report? || c.LateArrival? ==>
                  after == if Reaches(c) then offered - OfFirmware(l, c.firmwareId) else offered)
  {
    if c.Report? || c.LateArrival? {
      ReportLeavesOffer(l, c);
    }
  }

  lemma ReportLeavesOffer(l: Ledger, c: Call)
    requires c.Report? || c.LateArrival?
    ensures AvailableDrones(Step(l, c).drones)
         == if Reaches(c) then AvailableDrones(l.drones) - OfFirmware(l, c.firmwareId) else AvailableDrones(l.drones)
  {
    hide Normalize, Narrow;
  }

  // ----- agreement of the two tables

  /** The drone's cached copy matches the certificate it is backed by. */
  predicate CopyMatches(l: Ledger, s: string)
    requires s in l.drones
  {
    var b := Backing(l, s);
    b.Some? ==> l.drones[s].certificateStanding == b.value.standing
                && l.drones[s].certificateEffectiveGoals == b.value.effectiveGoals
  }

  ghost predicate Agree(l: Ledger, firmwareId: string) {
    forall s <- l.drones :: l.drones[s].firmwareId == firmwareId ==> CopyMatches(l, s)
  }

  /** After a report that revokes, all certificates and all drone rows of the firmware are revoked;
      after one that sets goals, all of them carry the same effective goals; any other decision, and
      goals without a normal form, which alone are an error, change nothing. */
  lemma ReportAligns(l: Ledger, firmwareId: string, decision: Decision)
    ensures var (l', result) := ReportStep(l, firmwareId, Some(decision));
            var setsGoals := decision.kind == "update_security_goals" && decision.effectiveGoals != [];
            && (result.Err? <==> setsGoals && Normalize(decision.effectiveGoals, true).None?)
            && (result.Err? || (!setsGoals && decision.kind != "revoke_certificate") ==> l' == l)
            && (decision.kind == "revoke_certificate" ==>
                  && (forall id <- l.certificates :: l.certificates[id].firmwareId == firmwareId ==>
                        id in l'.certificates && l'.certificates[id] == l.certificates[id].(standing := Revoked))
                  && (forall s <- l.drones :: l.drones[s].firmwareId == firmwareId ==>
                        s in l'.drones && l'.drones[s] == l.drones[s].(registration := RegistrationRevoked,
                                                                       certificateStanding := Revoked)))
            && (setsGoals && result.Ok? ==>
                  var goals := Normalize(decision.effectiveGoals, true).value;
                  && (forall id <- l.certificates :: l.certificates[id].firmwareId == firmwareId ==>
                        id in l'.certificates && l'.certificates[id] == l.certificates[id].(effectiveGoals := goals))
                  && (forall s <- l.drones :: l.drones[s].firmwareId == firmwareId ==>
                        s in l'.drones && l'.drones[s] == l.drones[s].(goals := l'.drones[s].goals,
                                                                       certificateEffectiveGoals := goals)))
    // nothing else moves
    ensures var l' := ReportStep(l, firmwareId, Some(decision)).0;
            && l'.certificates.Keys == l.certificates.Keys && l'.drones.Keys == l.drones.Keys
            && (forall id <- l.certificates ::
                l.certificates[id].firmwareId != firmwareId ==> l'.certificates[id] == l.certificates[id])
            && (forall s <- l.drones :: l.drones[s].firmwareId != firmwareId ==> l'.drones[s] == l.drones[s])
  {
    hide Normalize, Narrow;
  }

  /** The call may set the tables of this firmware apart: it certifies the firmware, carries out one
      half of a report on it, or registers a drone of it with what it read earlier. */
  predicate MayDisturb(c: Call, firmwareId: string) {
    || ((c.Certify? || (c.Report? && c.link.Denied?) || c.LateArrival?) && c.firmwareId == firmwareId)
    || (c.Overtaken? && c.request.firmwareId == firmwareId)
  }

  /** Every other call keeps the two tables in agreement. */
  lemma AgreementIsKept(l: Ledger, c: Call, firmwareId: string)
    requires Agree(l, firmwareId)
    requires !MayDisturb(c, firmwareId)
    ensures Agree(Step(l, c), firmwareId)
  {
    hide CopyMatches, RegoalDrone;
    match c
    case Certify(f, fw, a) => CertifyKeepsOthers(l, f, fw, a, firmwareId);
    case Register(r, known, a) => RegisterKeepsAgreement(l, r, known, a, firmwareId);
    case Overtaken(_, _, _, _) => OvertakenKeepsOthers(l, c, firmwareId);
    case Report(f, d, link) =>
      if link.Denied? {
        HalfKeepsOthers(l, c, firmwareId);
      } else {
        ReportKeepsAgreement(l, f, d, firmwareId);
      }
    case LateArrival(_, _) => HalfKeepsOthers(l, c, firmwareId);
    case _ => SaleKeepsAgreement(l, c, firmwareId);
  }

  lemma CertifyKeepsOthers(l: Ledger, certified: string, firmware: Option<Goals>, answer: Option<CertifyAnswer>,
      firmwareId: string)
    requires Agree(l, firmwareId) && certified != firmwareId
    ensures Agree(CertifyStep(l, certified, firmware, answer).0, firmwareId)
  {
    var l' := CertifyStep(l, certified, firmware, answer).0;
    forall s | s in l'.drones && l'.drones[s].firmwareId == firmwareId ensures CopyMatches(l', s) {
      assert CopyMatches(l, s);
    }
  }

  lemma HalfKeepsOthers(l: Ledger, c: Call, firmwareId: string)
    requires (c.Report? && c.link.Denied?) || c.LateArrival?
    requires Agree(l, firmwareId) && c.firmwareId != firmwareId
    ensures Agree(Step(l, c), firmwareId)
  {
    hide Normalize, Narrow;
    var l' := Step(l, c);
    forall s | s in l'.drones && l'.drones[s].firmwareId == firmwareId ensures CopyMatches(l', s) {
      RowKeepsItsFirmware(l, c, s);
      assert CopyMatches(l, s);
    }
  }

  lemma RegisterKeepsAgreement(l: Ledger, r: DroneRequest, known: bool, answer: Option<RegisterAnswer>,
      firmwareId: string)
    requires Agree(l, firmwareId)
    ensures Agree(RegisterStep(l, r, known, answer).0, firmwareId)
  {
    var l' := RegisterStep(l, r, known, answer).0;
    forall s | s in l'.drones && l'.drones[s].firmwareId == firmwareId ensures CopyMatches(l', s) {
      if s in l.drones {
        assert CopyMatches(l, s);
      }
    }
  }

  lemma OvertakenKeepsOthers(l: Ledger, c: Call, firmwareId: string)
    requires c.Overtaken? && c.request.firmwareId != firmwareId && Agree(l, firmwareId)
    ensures Agree(Step(l, c), firmwareId)
  {
    hide Normalize, GoalsAllowed;
    var l' := Step(l, c);
    forall s | s in l'.drones && l'.drones[s].firmwareId == firmwareId ensures CopyMatches(l', s) {
      assert s in l.drones && CopyMatches(l, s);
    }
  }

  lemma ReportKeepsAgreement(l: Ledger, reported: string, decision: Option<Decision>, firmwareId: string)
    requires Agree(l, firmwareId)
    ensures Agree(ReportStep(l, reported, decision).0, firmwareId)
  {
    hide CopyMatches, ReportStep;
    var l' := ReportStep(l, reported, decision).0;
    forall s | s in l'.drones && l'.drones[s].firmwareId == firmwareId ensures CopyMatches(l', s) {
      ReportKeepsDrones(l, reported, decision);
      ReportKeepsCopy(l, reported, decision, s);
    }
  }

  lemma ReportKeepsDrones(l: Ledger, reported: string, decision: Option<Decision>)
    ensures var l' := ReportStep(l, reported, decision).0;
            forall s <- l'.drones :: s in l.drones && l'.drones[s].firmwareId == l.drones[s].firmwareId
  {
  }

  lemma ReportKeepsCopy(l: Ledger, reported: string, decision: Option<Decision>, s: string)
    requires s in l.drones && CopyMatches(l, s) && s in ReportStep(l, reported, decision).0.drones
    ensures CopyMatches(ReportStep(l, reported, decision).0, s)
  {
  }

  lemma SaleKeepsAgreement(l: Ledger, c: Call, firmwareId: string)
    requires Agree(l, firmwareId) && (c.Purchase? || c.Delivery?)
    ensures Agree(Step(l, c), firmwareId)
  {
    var l' := Step(l, c);
    forall s | s in l'.drones && l'.drones[s].firmwareId == firmwareId ensures CopyMatches(l', s) {
      assert s in l.drones && l.drones[s].firmwareId == firmwareId && CopyMatches(l, s);
    }
  }

  /** In any run in which a firmware is not certified again, no report on it is cut in halves and no
      registration for it is overtaken, its certificates and drone rows agree throughout. */
  lemma {:induction false} AgreementWithoutRecertification(calls: seq<Call>, more: seq<Call>, firmwareId: string)
    requires Agree(Run(calls), firmwareId)
    requires forall c <- more :: !MayDisturb(c, firmwareId)
    ensures Agree(Run(calls + more), firmwareId)
  {
    hide Step, Agree;
    if more == [] {
      assert calls + more == calls;
    } else {
      var n := |more| - 1;
      AgreementWithoutRecertification(calls, more[..n], firmwareId);
      assert (calls + more)[..|calls| + n] == calls + more[..n];
      assert more[n] in more;
      AgreementIsKept(Run(calls + more[..n]), more[n], firmwareId);
    }
  }

  /** A denied report keeps the agreement exactly when every drone row with a certificate on file
      knows the decision already. */
  lemma DeniedReportKeepsAgreement(l: Ledger, firmwareId: string, decision: Decision)
    requires Agree(l, firmwareId) && ReportStep(l, firmwareId, Some(decision)).1.Ok?
    ensures Agree(Step(l, Report(firmwareId, Some(decision), Denied)), firmwareId)
            <==> forall s <- OfFirmware(l, firmwareId) | Backing(l, s).Some? :: Knows(l.drones[s], decision)
  {
    var c := Report(firmwareId, Some(decision), Denied);
    var l' := Step(l, c);
    forall s | s in OfFirmware(l, firmwareId)
      ensures CopyMatches(l', s) <==> (Backing(l, s).Some? ==> Knows(l.drones[s], decision))
    {
      assert CopyMatches(l, s);
    }
  }

  /** The cached copy is what the decision would make it. */
  predicate Knows(d: Drone, decision: Decision) {
    if decision.kind == REVOKE then d.certificateStanding.Revoked?
    else decision.kind == UPDATE_GOALS && decision.effectiveGoals != [] ==>
      Some(d.certificateEffectiveGoals) == Normalize(decision.effectiveGoals, true)
  }

  /** Certifying a firmware again keeps the agreement exactly when every drone row already
      registered under the reissued certificate id is unrevoked and carries the new goals. */
  lemma RecertificationKeepsAgreement(l: Ledger, firmwareId: string, firmware: Option<Goals>,
      answer: Option<CertifyAnswer>)
    requires Agree(l, firmwareId)
    requires Issue(firmwareId, firmware, answer).Ok?
    ensures var (id, cert) := Issue(firmwareId, firmware, answer).value;
            Agree(CertifyStep(l, firmwareId, firmware, answer).0, firmwareId)
            <==> forall s <- l.drones :: l.drones[s].firmwareId == firmwareId && l.drones[s].certificateId == id ==>
                   l.drones[s].certificateStanding.Active? && l.drones[s].certificateEffectiveGoals == cert.goals
  {
    var (id, cert) := Issue(firmwareId, firmware, answer).value;
    var l' := CertifyStep(l, firmwareId, firmware, answer).0;
    forall s | s in l.drones && l.drones[s].firmwareId == firmwareId
      ensures CopyMatches(l', s) <==>
        (l.drones[s].certificateId == id ==>
           l.drones[s].certificateStanding.Active? && l.drones[s].certificateEffectiveGoals == cert.goals)
    {
      assert CopyMatches(l, s);
    }
  }

  /** A run in which the tables drift apart, for any two different sets of goals: certify with the
      one, register a drone, let the regulator set the other, certify again. */
  lemma RecertificationMayDisagree(g: Goals, h: Goals)
    requires g != [] && h != [] && g != h
    requires Normalize(g, true) == Some(g) && Normalize(h, true) == Some(h)
    ensures var certify := Certify("fw", Some(g), None);
            var l := Run([certify, Register(DroneRequest("s", "t", "fw", "cert-drone-fw", g, 0.0), true, None),
                          Report("fw", Some(Decision(UPDATE_GOALS, h)), Through), certify]);
            "s" in l.drones && !Agree(l, "fw")
  {
    hide Normalize, Narrow;
    var certify := Certify("fw", Some(g), None);
    var register := Register(DroneRequest("s", "t", "fw", "cert-drone-fw", g, 0.0), true, None);
    var report := Report("fw", Some(Decision(UPDATE_GOALS, h)), Through);
    var calls := [certify, register, report, certify];
    assert calls[..3] == [certify, register, report] && calls[..3][..2] == [certify, register]
        && calls[..3][..2][..1] == [certify] && calls[..3][..2][..1][..0] == [];
    var l2 := Run([certify, register]);
    SoldUnderGoals(g);
    var l3 := Run([certify, register, report]);
    assert l3.drones["s"].certificateEffectiveGoals == h;
    var l4 := Run(calls);
    IssuedForGoals(g);
    assert l4.certificates["cert-drone-fw"].effectiveGoals == g;
    assert !CopyMatches(l4, "s");
  }

  /** Two such sets: the first goal alone, and the second alone. */
  lemma SuchGoalsExist()
    ensures [GOAL_1] != [GOAL_2]
    ensures Normalize([GOAL_1], true) == Some([GOAL_1]) && Normalize([GOAL_2], true) == Some([GOAL_2])
  {
    GoalIsNormal([GOAL_1]);
    GoalIsNormal([GOAL_2]);
    GoalsDiffer();
  }

  // ----- goals of drones and certificates

  predicate Within(goals: Goals, others: Goals) {
    forall g <- goals :: g in others
  }

  ghost predicate GoalsWithin(l: Ledger) {
    forall s <- l.drones :: Within(l.drones[s].goals, l.drones[s].certificateEffectiveGoals)
  }

  /** The call leaves the choice of goals to this company: no regulator registers or re-registers. */
  predicate Local(c: Call) {
    (c.Register? || c.Overtaken? ==> c.registerAnswer.None?) && (c.Purchase? ==> !c.regulatorMode || c.goals.None?)
  }

  lemma StepKeepsWithin(l: Ledger, c: Call)
    requires GoalsWithin(l) && Local(c)
    ensures GoalsWithin(Step(l, c))
  {
    hide Normalize, Narrow;
    var l' := Step(l, c);
    forall s | s in l'.drones ensures Within(l'.drones[s].goals, l'.drones[s].certificateEffectiveGoals) {
      if s in l.drones {
        assert Within(l.drones[s].goals, l.drones[s].certificateEffectiveGoals);
        if c.Report? && c.decision.Some? && Normalize(c.decision.value.effectiveGoals, true).Some? {
          NarrowIsIntersection(l.drones[s].goals, Normalize(c.decision.value.effectiveGoals, true).value);
        } else if c.LateArrival? && Normalize(c.lateDecision.effectiveGoals, true).Some? {
          NarrowIsIntersection(l.drones[s].goals, Normalize(c.lateDecision.effectiveGoals, true).value);
        }
      }
    }
  }

  /** Where no regulator chooses them, a drone's goals never exceed the effective goals of its
      certificate as it knows them, over any run with goal updates and certifications. */
  lemma {:induction false} GoalsStayWithinCertificate(calls: seq<Call>)
    requires forall i :: 0 <= i < |calls| ==> Local(calls[i])
    ensures GoalsWithin(Run(calls))
  {
    hide Step;
    if |calls| > 0 {
      var n := |calls| - 1;
      GoalsStayWithinCertificate(calls[..n]);
      StepKeepsWithin(Run(calls[..n]), calls[n]);
    }
  }

  /** An update of the goals narrows every drone of the firmware to what it had and the update
      allows; no drone gains a goal. */
  lemma UpdateNarrowsGoals(l: Ledger, firmwareId: string, decision: Decision, s: string)
    requires decision.kind == UPDATE_GOALS && decision.effectiveGoals != []
    requires ReportStep(l, firmwareId, Some(decision)).1.Ok? && s in l.drones && l.drones[s].firmwareId == firmwareId
    ensures var d, d' := l.drones[s], ReportStep(l, firmwareId, Some(decision)).0.drones[s];
            forall g :: g in d'.goals <==> g in d.goals && g in Items(decision.effectiveGoals)
  {
    NarrowIsIntersection(l.drones[s].goals, Normalize(decision.effectiveGoals, true).value);
    NormalFormIsFixed(decision.effectiveGoals, true);
  }
}
