/** The registry, certification and vulnerability services over their own tables. Each service
    call is proved to take the matching step of `CertificateLedger`. */
module DroneRegistry {
  import opened Wrappers
  import opened CertificateLedger
  import opened SecurityGoals

  class CertificateStorage {
    var certificates: map<string, Certificate>

    constructor ()
      ensures certificates == map[]
    {
      certificates := map[];
    }
  }

  class CertificationService {
    const storage: CertificateStorage

    constructor (storage: CertificateStorage)
      ensures this.storage == storage
    {
      this.storage := storage;
    }

    method Certify(firmwareId: string, firmware: Option<Goals>, answer: Option<CertifyAnswer>,
        ghost drones: map<string, Drone>)
      returns (r: Result<string, Failure>)
      modifies storage
      ensures (Ledger(storage.certificates, drones), r)
           == CertifyStep(Ledger(old(storage.certificates), drones), firmwareId, firmware, answer)
    {
      if firmware.None? {
        return Err(FirmwareNotFound);
      }
      var id, goals, signedBy := DefaultCertificateId(firmwareId), firmware.value, "systems.regulator";
      if answer.Some? {
        var a := answer.value;
        if !a.accepted {
          return Err(RejectedByRegulator);
        }
        if a.goals != [] { goals := a.goals; }
        if a.certificateId != "" { id := a.certificateId; }
        if a.signedBy != "" { signedBy := a.signedBy; }
      }
      if firmwareId == "" || goals == [] || Normalize(goals, false).None? {
        return Err(InvalidCertificate);
      }
      storage.certificates := storage.certificates[id := Certificate(firmwareId, goals, signedBy, Active, goals)];
      r := Ok(id);
    }

    method GetCertificateSnapshot(id: string, firmwareId: string) returns (r: Option<Certificate>)
      ensures r == Snapshot(storage.certificates, id, firmwareId)
      ensures r.Some? <==> id in storage.certificates && storage.certificates[id].firmwareId == firmwareId
      ensures r.Some? ==> r.value == storage.certificates[id]
    {
      if id !in storage.certificates || storage.certificates[id].firmwareId != firmwareId {
        return None;
      }
      return Some(storage.certificates[id]);
    }
  }

  class DroneRegistryService {
    const certification: CertificationService
    var drones: map<string, Drone>

    constructor (certification: CertificationService)
      ensures this.certification == certification && drones == map[]
    {
      this.certification := certification;
      drones := map[];
    }

    ghost function Books(): Ledger
      reads this, certification.storage
    {
      Ledger(certification.storage.certificates, drones)
    }

    method Register(r: DroneRequest, firmwareKnown: bool, answer: Option<RegisterAnswer>)
      returns (result: Result<string, Failure>)
      modifies this
      ensures (Books(), result) == RegisterStep(old(Books()), r, firmwareKnown, answer)
    {
      var chosen := Normalize(r.goals, true);
      if chosen.None? {
        return Err(InvalidGoals);
      }
      var cert := certification.GetCertificateSnapshot(r.certificateId, r.firmwareId);
      if cert.None? {
        return Err(NoCertificate);
      }
      if cert.value.standing == Revoked {
        return Err(CertificateRevoked);
      }
      if !GoalsAllowed(chosen.value, cert.value.effectiveGoals, answer.Some?) {
        return Err(GoalsNotAllowed);
      }
      if !firmwareKnown {
        return Err(FirmwareNotFound);
      }
      if !ValidDrone(r) {
        return Err(InvalidDrone);
      }
      var registrationId, version := "local-" + r.serial, 1;
      if answer.Some? {
        if !answer.value.accepted {
          return Err(RejectedByRegulator);
        }
        registrationId := answer.value.registrationId;
        version := if answer.value.version != 0 then answer.value.version else 1;
      }
      if r.serial in drones {
        return Err(SerialTaken);
      }
      drones := drones[r.serial := Drone(
        r.firmwareId, r.certificateId, chosen.value, r.price, Available,
        registrationId, RegisteredByRegulator, version, "", "", "none", "", "developer",
        cert.value.standing, cert.value.effectiveGoals, cert.value.goals)];
      result := Ok(registrationId);
    }

    method ListAvailable() returns (serials: set<string>)
      ensures serials == AvailableDrones(drones)
      ensures forall s :: s in serials <==> && s in drones && drones[s].sale == Available
                                            && drones[s].registration == RegisteredByRegulator
                                            && drones[s].certificateStanding == Active
    {
      var todo := drones.Keys;
      serials := {};
      while todo != {}
        invariant todo <= drones.Keys
        invariant serials == AvailableDrones(drones) - todo
      {
        var s :| s in todo;
        var d := drones[s];
        if d.sale == Available && d.registration == RegisteredByRegulator && d.certificateStanding == Active {
          serials := serials + {s};
        }
        todo := todo - {s};
      }
    }

    /** Rewrites the selected rows one at a time. */
    method NarrowRows(firmwareId: string, goals: Goals)
      modifies this
      ensures drones == RegoalDrones(old(drones), firmwareId, goals)
    {
      ghost var before := drones;
      var rows := set s | s in drones && drones[s].firmwareId == firmwareId;
      var todo := rows;
      while todo != {}
        invariant todo <= rows <= before.Keys == drones.Keys
        invariant forall s <- before :: s in todo || s !in rows ==> drones[s] == before[s]
        invariant forall s <- rows - todo :: drones[s] == RegoalDrone(before[s], goals)
      {
        var s :| s in todo;
        drones := drones[s := RegoalDrone(drones[s], goals)];
        todo := todo - {s};
      }
    }

    /** One UPDATE for a revocation; for new goals, a loop over the selected rows. */
    method ApplyFirmwareCertDecision(firmwareId: string, decision: Decision) returns (updated: Result<bool, Failure>)
      modifies this
      ensures Books() == RegistryHalf(old(Books()), firmwareId, decision)
      ensures updated.Ok? ==>
        updated.value == (decision.kind == REVOKE || (decision.kind == UPDATE_GOALS && decision.effectiveGoals != []))
      ensures updated.Err? <==> ReportStep(old(Books()), firmwareId, Some(decision)).1.Err?
      ensures updated.Err? ==> updated.error == InvalidGoals && drones == old(drones)
    {
      if decision.kind == REVOKE {
        drones := RevokeDrones(drones, firmwareId);
        return Ok(true);
      }
      if decision.kind == UPDATE_GOALS {
        if decision.effectiveGoals == [] {
          return Ok(false);
        }
        var norm := Normalize(decision.effectiveGoals, true);
        if norm.None? {
          return Err(InvalidGoals);
        }
        NarrowRows(firmwareId, norm.value);
        return Ok(true);
      }
      return Ok(false);
    }

    method UpdateDroneAfterPurchase(serial: string, operator: string, dest: string, regulatorMode: bool,
                                    version: int, goals: Option<Goals>)
      modifies this
      ensures Books() == PurchaseStep(old(Books()), serial, operator, dest, regulatorMode, version, goals)
    {
      if serial in drones {
        var d := drones[serial];
        if !regulatorMode {
          d := d.(sale := Sold, owner := operator, destination := dest);
        } else {
          d := d.(sale := SoldReregistered, owner := operator, destination := dest, registrationVersion := version,
                  deliveryStatus := if dest != "" then "pending_delivery" else "none", responsibility := "developer");
          if goals.Some? {
            d := d.(goals := goals.value);
          }
        }
        drones := drones[serial := d];
      }
    }

    method UpdateDroneDelivery(serial: string, status: string, at: string, responsibility: string)
      modifies this
      ensures Books() == DeliveryStep(old(Books()), serial, status, at, responsibility)
    {
      if serial in drones {
        drones := drones[serial := drones[serial].(deliveryStatus := status, deliveredAt := at,
                                                   responsibility := responsibility)];
      }
    }
  }

  class CriticalVulnerabilityService {
    const registry: DroneRegistryService

    constructor (registry: DroneRegistryService)
      ensures this.registry == registry
    {
      this.registry := registry;
    }

    /** The certificates are committed first, then the registry is called through the monitor. The
        call fails the report when it is denied, when it times out and when only its answer is lost. */
    method Report(firmwareId: string, decision: Option<Decision>, link: Link) returns (r: Result<(), Failure>)
      modifies registry, registry.certification.storage
      ensures (registry.Books(), r) == ReportOver(old(registry.Books()), firmwareId, decision, link)
    {
      if decision.None? {
        return Ok(());
      }
      var applied := ApplyDecisionCertOnly(firmwareId, decision.value);
      if applied.Err? {
        return Err(applied.error);
      }
      r := RegistryApply(firmwareId, decision.value, link);
    }

    /** The proxied call: unless denied, the registry carries it out; unless answered, it raises. */
    method RegistryApply(firmwareId: string, decision: Decision, link: Link) returns (r: Result<(), Failure>)
      modifies registry
      ensures link.Denied? ==> registry.Books() == old(registry.Books()) && r == Err(RegistryUnreachable)
      ensures !link.Denied? ==> registry.Books() == RegistryHalf(old(registry.Books()), firmwareId, decision)
      ensures link.AnswerLost? ==> r == Err(RegistryUnreachable)
      ensures link.Through? ==> r == ReportStep(old(registry.Books()), firmwareId, Some(decision)).1
    {
      if link.Denied? {
        return Err(RegistryUnreachable);
      }
      var updated := registry.ApplyFirmwareCertDecision(firmwareId, decision);
      if link.AnswerLost? {
        return Err(RegistryUnreachable);
      }
      return if updated.Err? then Err(updated.error) else Ok(());
    }

    method ApplyDecisionCertOnly(firmwareId: string, decision: Decision) returns (r: Result<(), Failure>)
      modifies registry.certification.storage
      ensures registry.Books() == CertificateHalf(old(registry.Books()), firmwareId, Some(decision))
      ensures r == ReportStep(old(registry.Books()), firmwareId, Some(decision)).1
    {
      var storage := registry.certification.storage;
      if decision.kind == REVOKE {
        storage.certificates := RevokeCertificates(storage.certificates, firmwareId);
        return Ok(());
      }
      if decision.kind == UPDATE_GOALS {
        if decision.effectiveGoals == [] {
          return Ok(());
        }
        var norm := Normalize(decision.effectiveGoals, true);
        if norm.None? {
          return Err(InvalidGoals);
        }
        storage.certificates := RegoalCertificates(storage.certificates, firmwareId, norm.value);
      }
      return Ok(());
    }
  }
}
