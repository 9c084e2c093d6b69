/** The operator's fleet: the trusted core holds each unit's state, the service in front of it keeps
    a cache of reservations and counts its operations. */
module FleetReservations {
  import opened Wrappers

  datatype Status = Available | Reserved | InMission | Maintenance | Charging | Error

  datatype Unit = Unit(
    status: Status, certificateValid: bool, certificateExpiry: string, batteryLevel: real, reservedBy: Option<string>)

  type Fleet = map<string, Unit>

  datatype Operation = ReserveOperation | MissionOperation | ReleaseOperation | OtherOperation

  datatype Reason =
    | Done | UasNotFound | CertificateInvalid | CertificateExpired | UasNotAvailable | UasNotReadyForMission
    | BatteryTooLow | NotAuthorizedToRelease | AlreadyReserved | InvalidStatus | InvalidBatteryLevel
    | NotANumber | UasAlreadyExists

  /** A level as it arrives from outside: a number, or something that is not one. */
  datatype Level = Number(value: real) | Unreadable

  datatype Updates = Updates(
    status: Option<string>, batteryLevel: Option<Level>, certificateValid: Option<bool>,
    certificateExpiry: Option<string>)

  datatype Reservation = Reservation(missionId: string, operatorId: string)

  datatype Metrics = Metrics(totalOperations: nat, successfulReservations: nat, failedReservations: nat)

  datatype State = State(fleet: Fleet, reservations: map<string, Reservation>, metrics: Metrics)

  /** Which expiry texts denote a moment still ahead, at the time of a call. */
  type Clock = string -> bool

  const OPERATOR_PREFIX := "operator_"

  function ParseStatus(text: string): Option<Status> {
    match text
    case "available" => Some(Available)
    case "reserved" => Some(Reserved)
    case "in_mission" => Some(InMission)
    case "maintenance" => Some(Maintenance)
    case "charging" => Some(Charging)
    case "error" => Some(Error)
    case _ => None
  }

  /** A unit held under an operator's name is released by that operator alone. */
  predicate HeldByAnotherOperator(u: Unit, operatorId: string) {
    u.reservedBy.Some? && OPERATOR_PREFIX <= u.reservedBy.value && u.reservedBy.value != operatorId
  }

  // ----- steps of the core

  function Authorize(fleet: Fleet, id: string, operation: Operation, operatorId: string, live: Clock): Reason {
    if id !in fleet then UasNotFound
    else
      var u := fleet[id];
      if !u.certificateValid then CertificateInvalid
      else if !live(u.certificateExpiry) then CertificateExpired
      else match operation
        case ReserveOperation => if u.status.Available? || u.status.Reserved? then Done else UasNotAvailable
        case MissionOperation =>
          if !(u.status.Reserved? || u.status.InMission?) then UasNotReadyForMission
          else if u.batteryLevel < 0.3 then BatteryTooLow
          else Done
        case ReleaseOperation => if HeldByAnotherOperator(u, operatorId) then NotAuthorizedToRelease else Done
        case OtherOperation => Done
  }

  function ReserveCore(fleet: Fleet, id: string, missionId: string, operatorId: string, live: Clock): (Fleet, Reason) {
    var reason := Authorize(fleet, id, ReserveOperation, operatorId, live);
    if reason != Done then (fleet, reason)
    else if !fleet[id].status.Available? then (fleet, AlreadyReserved)
    else (fleet[id := fleet[id].(status := Reserved, reservedBy := Some(missionId))], Done)
  }

  function ReleaseCore(fleet: Fleet, id: string, operatorId: string, live: Clock): (Fleet, Reason) {
    var reason := Authorize(fleet, id, ReleaseOperation, operatorId, live);
    if reason != Done then (fleet, reason)
    else (fleet[id := fleet[id].(status := Available, reservedBy := None)], Done)
  }

  /** What an update leaves of a unit. An earlier part stays applied when a later one is refused. */
  function UpdateUnit(u: Unit, updates: Updates): (Unit, Reason) {
    if updates.status.Some? && ParseStatus(updates.status.value).None? then (u, InvalidStatus)
    else
      var u1 := if updates.status.Some? then u.(status := ParseStatus(updates.status.value).value) else u;
      if updates.batteryLevel.Some? && updates.batteryLevel.value.Unreadable? then (u1, NotANumber)
      else if updates.batteryLevel.Some? && !(0.0 <= updates.batteryLevel.value.value <= 1.0)
      then (u1, InvalidBatteryLevel)
      else
        var u2 := if updates.batteryLevel.Some? then u1.(batteryLevel := updates.batteryLevel.value.value) else u1;
        var u3 :=
          if updates.certificateValid.Some? then u2.(certificateValid := updates.certificateValid.value) else u2;
        (if updates.certificateExpiry.Some? then u3.(certificateExpiry := updates.certificateExpiry.value) else u3,
         Done)
  }

  function UpdateCore(fleet: Fleet, id: string, updates: Updates): (Fleet, Reason) {
    if id !in fleet then (fleet, UasNotFound)
    else var (u, reason) := UpdateUnit(fleet[id], updates); (fleet[id := u], reason)
  }

  function AddCore(fleet: Fleet, id: string, certificateValid: bool, certificateExpiry: string, batteryLevel: real)
    : (Fleet, Reason)
  {
    if id in fleet then (fleet, UasAlreadyExists)
    else (fleet[id := Unit(Available, certificateValid, certificateExpiry, batteryLevel, None)], Done)
  }

  // ----- steps of the service

  function ReserveStep(s: State, id: string, missionId: string, operatorId: string, live: Clock): (State, Reason) {
    var (fleet, reason) := ReserveCore(s.fleet, id, missionId, operatorId, live);
    var m := s.metrics;
    if reason == Done then
      (State(fleet, s.reservations[id := Reservation(missionId, operatorId)],
             m.(totalOperations := m.totalOperations + 1, successfulReservations := m.successfulReservations + 1)),
       Done)
    else
      (s.(fleet := fleet, metrics := m.(totalOperations := m.totalOperations + 1,
                                        failedReservations := m.failedReservations + 1)), reason)
  }

  function ReleaseStep(s: State, id: string, operatorId: string, live: Clock): (State, Reason) {
    var (fleet, reason) := ReleaseCore(s.fleet, id, operatorId, live);
    if reason == Done then (s.(fleet := fleet, reservations := s.reservations - {id}), Done)
    else (s.(fleet := fleet), reason)
  }

  // ----- what the steps mean

  /** What speaks against an operation: the unit is missing, its certificate is not valid or has run out,
      or the unit's status, charge or holder does not allow it. */
  function FirstObjection(fleet: Fleet, id: string, operation: Operation, operatorId: string, live: Clock): Reason {
    if id !in fleet then UasNotFound
    else if !fleet[id].certificateValid then CertificateInvalid
    else if !live(fleet[id].certificateExpiry) then CertificateExpired
    else if operation == ReserveOperation && fleet[id].status !in {Available, Reserved} then UasNotAvailable
    else if operation == MissionOperation && fleet[id].status !in {Reserved, InMission} then UasNotReadyForMission
    else if operation == MissionOperation && fleet[id].batteryLevel < 0.3 then BatteryTooLow
    else if operation == ReleaseOperation && fleet[id].reservedBy.Some? && fleet[id].reservedBy != Some(operatorId)
            && |fleet[id].reservedBy.value| >= 9 && fleet[id].reservedBy.value[..9] == "operator_"
    then NotAuthorizedToRelease
    else Done
  }

  lemma AuthorizeMeans(fleet: Fleet, id: string, operation: Operation, operatorId: string, live: Clock)
    ensures Authorize(fleet, id, operation, operatorId, live) == FirstObjection(fleet, id, operation, operatorId, live)
  {
    assert |OPERATOR_PREFIX| == 9;
  }

  /** The names of the six statuses. */
  lemma StatusNames(text: string)
    ensures ParseStatus("available") == Some(Available) && ParseStatus("reserved") == Some(Reserved)
    ensures ParseStatus("in_mission") == Some(InMission) && ParseStatus("maintenance") == Some(Maintenance)
    ensures ParseStatus("charging") == Some(Charging) && ParseStatus("error") == Some(Error)
    ensures ParseStatus(text).Some?
       <==> text in {"available", "reserved", "in_mission", "maintenance", "charging", "error"}
  {
  }

  /** An update is refused for the first part that cannot be taken: an unknown status, a level that is
      not a number or not between 0 and 1. What comes before that part is applied, what comes after is
      not, and the holder is never touched. */
  lemma UpdateMeans(u: Unit, updates: Updates)
    ensures var (u', reason) := UpdateUnit(u, updates);
            var level := updates.batteryLevel;
            var unknown := updates.status.Some? && ParseStatus(updates.status.value).None?;
            var high := level.Some? && level.value.Number? && (level.value.value < 0.0 || level.value.value > 1.0);
            && (reason == InvalidStatus <==> unknown)
            && (reason == NotANumber <==> !unknown && level == Some(Unreadable))
            && (reason == InvalidBatteryLevel <==> !unknown && high)
            && (reason == Done <==> !unknown && level != Some(Unreadable) && !high)
            && u'.reservedBy == u.reservedBy
            && u'.status == (if unknown || updates.status.None? then u.status
                             else ParseStatus(updates.status.value).value)
            && u'.batteryLevel == (if reason == Done && level.Some? then level.value.value else u.batteryLevel)
            && u'.certificateValid == (if reason == Done && updates.certificateValid.Some?
                                       then updates.certificateValid.value else u.certificateValid)
            && u'.certificateExpiry == (if reason == Done && updates.certificateExpiry.Some?
                                        then updates.certificateExpiry.value else u.certificateExpiry)
  {
    hide ParseStatus;
  }

  /** Updating and adding concern one unit; a new one is available and held by nobody. */
  lemma OtherUnitsStay(fleet: Fleet, id: string, updates: Updates, valid: bool, expiry: string, level: real)
    ensures var (fleet', reason) := UpdateCore(fleet, id, updates);
            if id in fleet then fleet' == fleet[id := UpdateUnit(fleet[id], updates).0]
                                && reason == UpdateUnit(fleet[id], updates).1
            else fleet' == fleet && reason == UasNotFound
    ensures AddCore(fleet, id, valid, expiry, level)
         == if id in fleet then (fleet, UasAlreadyExists)
            else (fleet[id := Unit(Available, valid, expiry, level, None)], Done)
  {
  }

  // ----- the classes

  class UasState {
    var status: Status
    var certificateValid: bool
    var certificateExpiry: string
    var batteryLevel: real
    var reservedBy: Option<string>

    constructor (certificateValid: bool, certificateExpiry: string, batteryLevel: real)
      ensures Value() == Unit(Available, certificateValid, certificateExpiry, batteryLevel, None)
    {
      status, reservedBy := Available, None;
      this.certificateValid, this.certificateExpiry := certificateValid, certificateExpiry;
      this.batteryLevel := batteryLevel;
    }

    ghost function Value(): Unit
      reads this
    {
      Unit(status, certificateValid, certificateExpiry, batteryLevel, reservedBy)
    }
  }

  class FleetManagerCore {
    var units: map<string, UasState>
    /** The values of the units, by id. */
    ghost var fleet: Fleet

    ghost predicate Valid()
      reads this, units.Values
    {
      && fleet.Keys == units.Keys
      && (forall id <- units :: units[id].Value() == fleet[id])
      && (forall a, b :: a in units && b in units && a != b ==> units[a] != units[b])
    }

    constructor ()
      ensures Valid() && fleet == map[] && units == map[]
    {
      units, fleet := map[], map[];
    }

    method AuthorizeUasOperation(id: string, operation: Operation, operatorId: string, live: Clock)
      returns (reason: Reason)
      requires Valid()
      ensures reason == Authorize(fleet, id, operation, operatorId, live)
    {
      if id !in units {
        return UasNotFound;
      }
      var uas := units[id];
      assert uas.Value() == fleet[id];
      if !uas.certificateValid {
        return CertificateInvalid;
      }
      if !live(uas.certificateExpiry) {
        return CertificateExpired;
      }
      match operation {
        case ReserveOperation =>
          if uas.status != Available && uas.status != Reserved {
            return UasNotAvailable;
          }
        case MissionOperation =>
          if uas.status !in {Reserved, InMission} {
            return UasNotReadyForMission;
          }
          if uas.batteryLevel < 0.3 {
            return BatteryTooLow;
          }
        case ReleaseOperation =>
          if uas.reservedBy.Some? && OPERATOR_PREFIX <= uas.reservedBy.value && uas.reservedBy.value != operatorId {
            return NotAuthorizedToRelease;
          }
        case OtherOperation =>
      }
      return Done;
    }

    method ReserveUas(id: string, missionId: string, operatorId: string, live: Clock) returns (reason: Reason)
      requires Valid()
      modifies this`fleet, units.Values
      ensures Valid() && (fleet, reason) == ReserveCore(old(fleet), id, missionId, operatorId, live)
    {
      reason := AuthorizeUasOperation(id, ReserveOperation, operatorId, live);
      if reason != Done {
        return;
      }
      var uas := units[id];
      assert uas.Value() == fleet[id];
      if uas.status != Available {
        return AlreadyReserved;
      }
      uas.status := Reserved;
      uas.reservedBy := Some(missionId);
      fleet := fleet[id := uas.Value()];
    }

    method ReleaseUas(id: string, operatorId: string, live: Clock) returns (reason: Reason)
      requires Valid()
      modifies this`fleet, units.Values
      ensures Valid() && (fleet, reason) == ReleaseCore(old(fleet), id, operatorId, live)
    {
      reason := AuthorizeUasOperation(id, ReleaseOperation, operatorId, live);
      if reason != Done {
        return;
      }
      var uas := units[id];
      assert uas.Value() == fleet[id];
      uas.status := Available;
      uas.reservedBy := None;
      fleet := fleet[id := uas.Value()];
    }

    method UpdateUasState(id: string, updates: Updates) returns (reason: Reason)
      requires Valid()
      modifies this`fleet, units.Values
      ensures Valid() && (fleet, reason) == UpdateCore(old(fleet), id, updates)
    {
      if id !in units {
        return UasNotFound;
      }
      reason := UpdateInPlace(units[id], updates);
      fleet := fleet[id := units[id].Value()];
    }

    static method UpdateInPlace(uas: UasState, updates: Updates) returns (reason: Reason)
      modifies uas
      ensures (uas.Value(), reason) == UpdateUnit(old(uas.Value()), updates)
    {
      if updates.status.Some? {
        var status := ParseStatus(updates.status.value);
        if status.None? {
          return InvalidStatus;
        }
        uas.status := status.value;
      }
      if updates.batteryLevel.Some? {
        if updates.batteryLevel.value.Unreadable? {
          return NotANumber;
        }
        var battery := updates.batteryLevel.value.value;
        if 0.0 <= battery <= 1.0 {
          uas.batteryLevel := battery;
        } else {
          return InvalidBatteryLevel;
        }
      }
      if updates.certificateValid.Some? {
        uas.certificateValid := updates.certificateValid.value;
      }
      if updates.certificateExpiry.Some? {
        uas.certificateExpiry := updates.certificateExpiry.value;
      }
      return Done;
    }

    method AddUas(id: string, certificateValid: bool, certificateExpiry: string, batteryLevel: real)
      returns (reason: Reason)
      requires Valid()
      modifies this
      ensures Valid() && (fleet, reason) == AddCore(old(fleet), id, certificateValid, certificateExpiry, batteryLevel)
      ensures fresh(units.Values - old(units.Values))
    {
      if id in units {
        return UasAlreadyExists;
      }
      var uas := new UasState(certificateValid, certificateExpiry, batteryLevel);
      ghost var before := units;
      units := units[id := uas];
      fleet := fleet[id := uas.Value()];
      assert units.Values <= before.Values + {uas};
      return Done;
    }
  }

  class FleetManagerService {
    const core: FleetManagerCore
    var reservations: map<string, Reservation>
    var metrics: Metrics

    constructor (core: FleetManagerCore)
      requires core.Valid()
      ensures this.core == core && Now() == State(core.fleet, map[], Metrics(0, 0, 0))
    {
      this.core, reservations, metrics := core, map[], Metrics(0, 0, 0);
    }

    ghost function Now(): State
      reads this, core
    {
      State(core.fleet, reservations, metrics)
    }

    method ReserveUasWithValidation(id: string, missionId: string, operatorId: string, live: Clock)
      returns (reason: Reason)
      requires core.Valid()
      modifies this, core`fleet, core.units.Values
      ensures core.Valid() && (Now(), reason) == ReserveStep(old(Now()), id, missionId, operatorId, live)
    {
      hide ReserveCore;
      reason := core.ReserveUas(id, missionId, operatorId, live);
      metrics := metrics.(totalOperations := metrics.totalOperations + 1);
      if reason == Done {
        metrics := metrics.(successfulReservations := metrics.successfulReservations + 1);
      } else {
        metrics := metrics.(failedReservations := metrics.failedReservations + 1);
      }
      if reason == Done {
        reservations := reservations[id := Reservation(missionId, operatorId)];
      }
    }

    /** Also tells which mission the unit was taken from, as far as the cache knows. */
    method ReleaseUasWithCleanup(id: string, operatorId: string, live: Clock)
      returns (reason: Reason, releasedFrom: Option<string>)
      requires core.Valid()
      modifies this, core`fleet, core.units.Values
      ensures core.Valid() && (Now(), reason) == ReleaseStep(old(Now()), id, operatorId, live)
      ensures reason == Done ==>
        releasedFrom == if id in old(reservations) then Some(old(reservations)[id].missionId) else None
    {
      hide ReleaseCore;
      releasedFrom := if id in reservations then Some(reservations[id].missionId) else None;
      reason := core.ReleaseUas(id, operatorId, live);
      if reason == Done {
        if id in reservations {
          reservations := reservations - {id};
        }
        assert reservations == old(reservations) - {id};
      }
    }
  }

  // ----- runs

  datatype Call =
    | Reserve(id: string, missionId: string, operatorId: string, live: Clock)
    | Release(id: string, operatorId: string, live: Clock)
    | Update(id: string, updates: Updates)
    | Add(id: string, certificateValid: bool, certificateExpiry: string, batteryLevel: real)

  function Step(s: State, c: Call): (State, Reason) {
    match c
    case Reserve(id, mission, operator, live) => ReserveStep(s, id, mission, operator, live)
    case Release(id, operator, live) => ReleaseStep(s, id, operator, live)
    case Update(id, updates) => var (fleet, reason) := UpdateCore(s.fleet, id, updates); (s.(fleet := fleet), reason)
    case Add(id, valid, expiry, level) =>
      var (fleet, reason) := AddCore(s.fleet, id, valid, expiry, level); (s.(fleet := fleet), reason)
  }

  function Run(calls: seq<Call>): State {
    if calls == [] then State(map[], map[], Metrics(0, 0, 0))
    else Step(Run(calls[..|calls| - 1]), calls[|calls| - 1]).0
  }

  predicate HeldFor(fleet: Fleet, id: string, missionId: string) {
    id in fleet && fleet[id].reservedBy == Some(missionId)
  }

  predicate CachedFor(reservations: map<string, Reservation>, id: string, missionId: string) {
    id in reservations && reservations[id].missionId == missionId
  }

  predicate Agrees(s: State, id: string, missionId: string) {
    CachedFor(s.reservations, id, missionId) <==> HeldFor(s.fleet, id, missionId)
  }

  lemma StepKeepsAgreement(s: State, c: Call, id: string, missionId: string)
    requires Agrees(s, id, missionId)
    ensures Agrees(Step(s, c).0, id, missionId)
  {
    var s' := Step(s, c).0;
    if c.id != id {
      assert id in s'.fleet <==> id in s.fleet;
      assert id in s.fleet ==> s'.fleet[id] == s.fleet[id];
      assert id in s'.reservations <==> id in s.reservations;
    } else if c.Update? && id in s.fleet {
      assert UpdateUnit(s.fleet[id], c.updates).0.reservedBy == s.fleet[id].reservedBy;
    }
  }

  /** In every reachable state, status updates included, the cache holds a reservation of a unit for
      a mission exactly when the core holds the unit for that mission. */
  lemma {:induction false} CacheAgreesWithCore(calls: seq<Call>, id: string, missionId: string)
    ensures CachedFor(Run(calls).reservations, id, missionId) <==> HeldFor(Run(calls).fleet, id, missionId)
  {
    hide Step;
    if |calls| > 0 {
      var n := |calls| - 1;
      CacheAgreesWithCore(calls[..n], id, missionId);
      StepKeepsAgreement(Run(calls[..n]), calls[n], id, missionId);
    }
  }

  /** Each reservation attempt is counted once, as a success or as a failure. */
  lemma {:induction false} EveryAttemptIsCounted(calls: seq<Call>)
    ensures var m := Run(calls).metrics;
            m.totalOperations == m.successfulReservations + m.failedReservations
            && m.totalOperations == Attempts(calls)
            && m.successfulReservations == Successes(calls)
  {
    if calls != [] {
      EveryAttemptIsCounted(calls[..|calls| - 1]);
    }
  }

  function Attempts(calls: seq<Call>): nat {
    if calls == [] then 0
    else Attempts(calls[..|calls| - 1]) + if calls[|calls| - 1].Reserve? then 1 else 0
  }

  predicate Succeeds(calls: seq<Call>, k: nat)
    requires k < |calls|
  {
    Step(Run(calls[..k]), calls[k]).1 == Done
  }

  function Successes(calls: seq<Call>): nat {
    if calls == [] then 0
    else
      var n := |calls| - 1;
      Successes(calls[..n]) + if calls[n].Reserve? && Succeeds(calls, n) then 1 else 0
  }

  /** Successful reservations of one unit. */
  function Reserves(calls: seq<Call>, id: string): nat {
    if calls == [] then 0
    else
      var n := |calls| - 1;
      Reserves(calls[..n], id) + if calls[n].Reserve? && calls[n].id == id && Succeeds(calls, n) then 1 else 0
  }

  /** Successful releases of one unit that found it reserved. */
  function Releases(calls: seq<Call>, id: string): nat {
    if calls == [] then 0
    else
      var n := |calls| - 1;
      Releases(calls[..n], id)
      + if calls[n].Release? && calls[n].id == id && Succeeds(calls, n) && Holds(Run(calls[..n]), id) == 1 then 1 else 0
  }

  function Holds(s: State, id: string): nat {
    if id in s.fleet && s.fleet[id].status.Reserved? then 1 else 0
  }

  /** The call is an update that makes the unit RESERVED, or takes that status from it. */
  predicate Flips(s: State, c: Call, id: string) {
    && c.Update? && c.id == id && id in s.fleet && c.updates.status.Some?
    && var status := ParseStatus(c.updates.status.value);
       status.Some? && s.fleet[id].status.Reserved? != status.value.Reserved?
  }

  /** The flips that raise the unit to RESERVED, or those that lower it. */
  function Flipped(calls: seq<Call>, id: string, raised: bool): nat {
    if calls == [] then 0
    else
      var n, s := |calls| - 1, Run(calls[..|calls| - 1]);
      Flipped(calls[..n], id, raised)
      + if Flips(s, calls[n], id) && (Holds(s, id) == 0) == raised then 1 else 0
  }

  lemma StepMovesHold(s: State, c: Call, id: string)
    ensures var (s', reason) := Step(s, c);
            Holds(s', id) == Holds(s, id)
              + (if c.Reserve? && c.id == id && reason == Done then 1 else 0)
              - (if c.Release? && c.id == id && reason == Done && Holds(s, id) == 1 then 1 else 0)
              + (if Flips(s, c, id) then 1 - 2 * Holds(s, id) else 0)
  {
    if c.id != id {
      assert id in Step(s, c).0.fleet <==> id in s.fleet;
    }
  }

  /** In every run, what makes a unit RESERVED and what ends it are in balance: reservations and
      raising updates against releases, lowering updates and the present hold. */
  lemma {:induction false} HoldsBalance(calls: seq<Call>, id: string)
    ensures Reserves(calls, id) + Flipped(calls, id, true)
         == Releases(calls, id) + Flipped(calls, id, false) + Holds(Run(calls), id)
  {
    hide Step, Flips;
    if calls != [] {
      var n := |calls| - 1;
      HoldsBalance(calls[..n], id);
      StepMovesHold(Run(calls[..n]), calls[n], id);
    }
  }

  /** The reservations are as many as the releases out of RESERVED, or one more, and one more exactly
      while the unit is reserved. */
  predicate Paired(calls: seq<Call>, id: string) {
    Reserves(calls, id) == Releases(calls, id) + Holds(Run(calls), id)
  }

  ghost predicate Alternates(calls: seq<Call>, id: string) {
    forall k :: 0 <= k <= |calls| ==> Paired(calls[..k], id)
  }

  ghost predicate NeverFlipped(calls: seq<Call>, id: string) {
    forall k :: 0 <= k < |calls| ==> !Flips(Run(calls[..k]), calls[k], id)
  }

  lemma AlternatesPrefix(calls: seq<Call>, id: string)
    requires calls != []
    ensures Alternates(calls, id) <==> Alternates(calls[..|calls| - 1], id) && Paired(calls, id)
  {
    hide Paired;
    var before := calls[..|calls| - 1];
    assert calls[..|calls|] == calls;
    forall k | 0 <= k < |calls| ensures before[..k] == calls[..k] {
    }
  }

  lemma NeverFlippedPrefix(calls: seq<Call>, id: string)
    requires calls != []
    ensures var n := |calls| - 1;
            NeverFlipped(calls, id) <==> NeverFlipped(calls[..n], id) && !Flips(Run(calls[..n]), calls[n], id)
  {
    hide Run, Flips;
    var before := calls[..|calls| - 1];
    forall k | 0 <= k < |before| ensures before[..k] == calls[..k] && before[k] == calls[k] {
    }
  }

  lemma {:induction false} NothingFlipped(calls: seq<Call>, id: string)
    requires NeverFlipped(calls, id)
    ensures Flipped(calls, id, true) == Flipped(calls, id, false) == 0
  {
    hide Run, Flips;
    if calls != [] {
      NeverFlippedPrefix(calls, id);
      NothingFlipped(calls[..|calls| - 1], id);
    }
  }

  /** The successful reservations of a unit and its releases out of RESERVED alternate, starting with
      a reservation, exactly when no status update made the unit RESERVED or took that status away. */
  lemma {:induction false} ReservesAndReleasesAlternate(calls: seq<Call>, id: string)
    ensures Alternates(calls, id) <==> NeverFlipped(calls, id)
  {
    hide Run, Step, Flips, Alternates, NeverFlipped, Reserves, Releases;
    if calls == [] {
      NothingYet(id);
    } else {
      var n := |calls| - 1;
      AlternatesPrefix(calls, id);
      NeverFlippedPrefix(calls, id);
      ReservesAndReleasesAlternate(calls[..n], id);
      HoldsBalance(calls, id);
      if NeverFlipped(calls[..n], id) {
        NothingFlipped(calls[..n], id);
      }
    }
  }

  lemma NothingYet(id: string)
    ensures Alternates([], id) && NeverFlipped([], id)
  {
  }

  predicate Untouched(s: State, id: string) {
    id in s.fleet ==>
      (s.fleet[id].status.Available? && s.fleet[id].reservedBy.None?)
      || (s.fleet[id].status.Reserved? && s.fleet[id].reservedBy.Some?)
  }

  /** A unit that was never given a status from outside is available, or reserved and held. */
  lemma {:induction false} UntouchedWithoutStatusUpdates(calls: seq<Call>, id: string)
    requires forall c <- calls :: !(c.Update? && c.id == id && c.updates.status.Some?)
    ensures Untouched(Run(calls), id)
  {
    hide Step;
    if calls != [] {
      var n := |calls| - 1;
      assert calls[n] in calls;
      UntouchedWithoutStatusUpdates(calls[..n], id);
      StepKeepsUntouched(Run(calls[..n]), calls[n], id);
    }
  }

  lemma StepKeepsUntouched(s: State, c: Call, id: string)
    requires Untouched(s, id) && !(c.Update? && c.id == id && c.updates.status.Some?)
    ensures Untouched(Step(s, c).0, id)
  {
    if c.id != id {
      assert id in Step(s, c).0.fleet <==> id in s.fleet;
    }
  }

  lemma OneMoreCall(calls: seq<Call>, c: Call, id: string)
    ensures var (s', reason) := Step(Run(calls), c);
            && Run(calls + [c]) == s'
            && Reserves(calls + [c], id) == Reserves(calls, id)
                + (if c.Reserve? && c.id == id && reason == Done then 1 else 0)
            && Releases(calls + [c], id)
               == Releases(calls, id)
                   + (if c.Release? && c.id == id && reason == Done && Holds(Run(calls), id) == 1 then 1 else 0)
  {
    assert (calls + [c])[..|calls|] == calls;
  }

  /** Added, reserved, and set available again from outside. */
  function FreedFromOutside(live: Clock): seq<Call> {
    [Add("u", true, "later", 1.0)] + [Reserve("u", "m1", "op", live)]
    + [Update("u", Updates(Some("available"), None, None, None))]
  }

  lemma AfterAdding()
    ensures var calls := [Add("u", true, "later", 1.0)];
            && Run(calls).fleet == map["u" := Unit(Available, true, "later", 1.0, None)]
            && Reserves(calls, "u") == 0 && Releases(calls, "u") == 0
  {
    hide ReserveStep, ReleaseStep, UpdateCore;
    var add := Add("u", true, "later", 1.0);
    assert [] + [add] == [add];
    OneMoreCall([], add, "u");
  }

  lemma AfterReserving(live: Clock)
    requires live("later")
    ensures var calls := [Add("u", true, "later", 1.0)] + [Reserve("u", "m1", "op", live)];
            && Run(calls).fleet == map["u" := Unit(Reserved, true, "later", 1.0, Some("m1"))]
            && Reserves(calls, "u") == 1 && Releases(calls, "u") == 0
  {
    hide Run, Reserves, Releases, UpdateCore;
    AfterAdding();
    OneMoreCall([Add("u", true, "later", 1.0)], Reserve("u", "m1", "op", live), "u");
  }

  lemma AfterFreeing(live: Clock)
    requires live("later")
    ensures var calls := FreedFromOutside(live);
            && Run(calls).fleet == map["u" := Unit(Available, true, "later", 1.0, Some("m1"))]
            && Reserves(calls, "u") == 1 && Releases(calls, "u") == 0
  {
    hide Run, Reserves, Releases, ReserveStep;
    AfterReserving(live);
    var reserved := [Add("u", true, "later", 1.0)] + [Reserve("u", "m1", "op", live)];
    OneMoreCall(reserved, Update("u", Updates(Some("available"), None, None, None)), "u");
    assert ParseStatus("available") == Some(Available);
  }

  /** With a status update between them two reservations may follow one another. */
  lemma StatusUpdateBreaksAlternation(live: Clock)
    requires live("later")
    ensures var calls := FreedFromOutside(live) + [Reserve("u", "m2", "op", live)];
            && Reserves(calls, "u") == 2 && Releases(calls, "u") == 0
            && CachedFor(Run(calls).reservations, "u", "m2")
  {
    hide Run, Reserves, Releases, FreedFromOutside, UpdateCore;
    AfterFreeing(live);
    OneMoreCall(FreedFromOutside(live), Reserve("u", "m2", "op", live), "u");
  }

  /** A reservation that succeeds takes an available unit with a live certificate, and touches no
      other unit; one that fails changes no unit and no cached reservation. */
  lemma ReservationTakesOneUnit(s: State, id: string, missionId: string, operatorId: string, live: Clock)
    ensures var (s', reason) := ReserveStep(s, id, missionId, operatorId, live);
            && (reason == Done <==> (id in s.fleet && s.fleet[id].status.Available? && s.fleet[id].certificateValid
                                   && live(s.fleet[id].certificateExpiry)))
            && (reason == Done ==>
                  && s'.fleet == s.fleet[id := s.fleet[id].(status := Reserved, reservedBy := Some(missionId))]
                  && s'.reservations == s.reservations[id := Reservation(missionId, operatorId)])
            && (reason != Done ==> s'.fleet == s.fleet && s'.reservations == s.reservations)
  {
  }

  /** A release that succeeds frees the unit, whatever its status was, and drops its cached
      reservation; only a missing unit, its certificate or another operator's hold prevents it. */
  lemma ReleaseFreesOneUnit(s: State, id: string, operatorId: string, live: Clock)
    ensures var (s', reason) := ReleaseStep(s, id, operatorId, live);
            && (reason == Done
                <==> (id in s.fleet && s.fleet[id].certificateValid && live(s.fleet[id].certificateExpiry)
                                     && !HeldByAnotherOperator(s.fleet[id], operatorId)))
            && (reason == Done ==>
                  && s'.fleet == s.fleet[id := s.fleet[id].(status := Available, reservedBy := None)]
                  && s'.reservations == s.reservations - {id} && s'.metrics == s.metrics)
            && (reason != Done ==> s' == s)
  {
  }

  predicate Charged(s: State, id: string) {
    id in s.fleet ==> 0.0 <= s.fleet[id].batteryLevel <= 1.0
  }

  /** Charge levels stay between empty and full in every run that adds units within that range. */
  lemma {:induction false} LevelsStayInRange(calls: seq<Call>, id: string)
    requires forall i :: 0 <= i < |calls| && calls[i].Add? ==> 0.0 <= calls[i].batteryLevel <= 1.0
    ensures Charged(Run(calls), id)
  {
    hide Step;
    if |calls| > 0 {
      var n := |calls| - 1;
      LevelsStayInRange(calls[..n], id);
      StepKeepsLevel(Run(calls[..n]), calls[n], id);
    }
  }

  lemma StepKeepsLevel(s: State, c: Call, id: string)
    requires Charged(s, id) && (c.Add? ==> 0.0 <= c.batteryLevel <= 1.0)
    ensures Charged(Step(s, c).0, id)
  {
    if c.id != id {
      assert id in Step(s, c).0.fleet ==> id in s.fleet && Step(s, c).0.fleet[id] == s.fleet[id];
    }
  }

  /** A refused battery level leaves an already parsed status behind. */
  lemma RefusedUpdateMayStick(fleet: Fleet, id: string, updates: Updates)
    requires id in fleet
    ensures var (fleet', reason) := UpdateCore(fleet, id, updates);
            reason != Done ==>
              (fleet' == fleet <==>
                 updates.status.None? || ParseStatus(updates.status.value).None?
                 || ParseStatus(updates.status.value) == Some(fleet[id].status))
  {
    var (fleet', reason) := UpdateCore(fleet, id, updates);
    if reason != Done {
      assert fleet'[id] == UpdateUnit(fleet[id], updates).0;
      if fleet'[id] == fleet[id] {
        assert fleet' == fleet;
      }
    }
  }

  /** Such an update: charging at level 2.0 is refused for its level, and the unit is charging. */
  lemma RefusedUpdateSticks(u: Unit)
    ensures UpdateUnit(u, Updates(Some("charging"), Some(Number(2.0)), None, None))
         == (u.(status := Charging), InvalidBatteryLevel)
  {
    assert ParseStatus("charging") == Some(Charging);
  }
}
