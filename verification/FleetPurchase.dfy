/** Buying units: stock moves from a developer's catalogue into the fleet, each new unit under the
    first free id found by counting up. */
module FleetPurchase {
  import opened Wrappers
  import opened Strings
  import F = FleetReservations

  datatype Model = Model(
    modelId: string, price: real, certified: bool, validUntil: Option<string>, availableQuantity: int)

  /** The models of each developer, in catalogue order. */
  type Catalogs = map<string, seq<Model>>

  datatype Extended = Extended(modelId: string, developerId: string)

  datatype Sale = Sale(uasId: string, modelId: string, developerId: string, price: real)

  datatype Failure = MissingArguments | DeveloperNotFound | ModelNotFound | InsufficientQuantity(available: int)

  /** The core's units, the service's extended records, the purchase history and the catalogues. */
  datatype Depot = Depot(fleet: F.Fleet, extended: map<string, Extended>, history: seq<Sale>, catalogs: Catalogs)

  const DEFAULT_EXPIRY := "2027-01-01"

  function UasId(n: nat): string {
    "UAS-" + Padded(n, 3)
  }

  lemma UasIdInjective(n: nat, m: nat)
    requires UasId(n) == UasId(m)
    ensures n == m
  {
    assert UasId(n)[4..] == Padded(n, 3) && UasId(m)[4..] == Padded(m, 3);
    PaddedInjective(n, m, 3);
  }

  // ----- the search for a free id

  lemma {:induction false} SubsetSize<T>(small: set<T>, big: set<T>)
    requires small <= big
    ensures |small| <= |big|
  {
    if small != {} {
      var x :| x in small;
      SubsetSize(small - {x}, big - {x});
    }
  }

  ghost function FirstIds(n: nat): (ids: set<string>)
    ensures forall id :: id in ids <==> exists i: nat :: 1 <= i <= n && id == UasId(i)
  {
    set i: nat | 1 <= i <= n :: UasId(i)
  }

  lemma {:induction false} FirstIdsCount(n: nat)
    ensures |FirstIds(n)| == n
  {
    hide UasId;
    if n == 0 {
      assert FirstIds(0) == {};
    } else {
      FirstIdsCount(n - 1);
      assert UasId(n) !in FirstIds(n - 1) by {
        if UasId(n) in FirstIds(n - 1) {
          var i: nat :| 1 <= i <= n - 1 && UasId(n) == UasId(i);
          UasIdInjective(n, i);
        }
      }
      assert FirstIds(n) == FirstIds(n - 1) + {UasId(n)};
    }
  }

  /** No more ids than are in use can have been found taken. */
  lemma SearchIsBounded(used: set<string>, idx: nat)
    requires forall i: nat :: 1 <= i < idx ==> UasId(i) in used
    ensures idx <= |used| + 1
  {
    if idx > 0 {
      assert FirstIds(idx - 1) <= used;
      SubsetSize(FirstIds(idx - 1), used);
      FirstIdsCount(idx - 1);
    }
  }

  /** The least number from `idx` on whose id is free. */
  function NextFrom(used: set<string>, idx: nat): (n: nat)
    requires 1 <= idx && forall i: nat :: 1 <= i < idx ==> UasId(i) in used
    ensures idx <= n <= |used| + 1 && UasId(n) !in used
    ensures forall i: nat :: 1 <= i < n ==> UasId(i) in used
    decreases |used| + 1 - idx
  {
    SearchIsBounded(used, idx);
    if UasId(idx) !in used then idx
    else
      SearchIsBounded(used, idx + 1);
      NextFrom(used, idx + 1)
  }

  // ----- a purchase

  function FindModel(models: seq<Model>, modelId: string): (at: Option<nat>)
    ensures at.Some? ==> at.value < |models| && models[at.value].modelId == modelId
                         && forall i :: 0 <= i < at.value ==> models[i].modelId != modelId
    ensures at.None? ==> forall i :: 0 <= i < |models| ==> models[i].modelId != modelId
  {
    if models == [] then None
    else if models[0].modelId == modelId then Some(0)
    else
      var rest := FindModel(models[1..], modelId);
      if rest.Some? then Some(rest.value + 1) else None
  }

  function Used(d: Depot): set<string> {
    d.fleet.Keys + d.extended.Keys
  }

  function FreshUnit(m: Model): F.Unit {
    var expiry := if m.certified && m.validUntil.Some? then m.validUntil.value else DEFAULT_EXPIRY;
    F.Unit(F.Available, m.certified, expiry, 1.0, None)
  }

  function AddOne(d: Depot, developerId: string, m: Model): Depot {
    AddAs(d, UasId(NextFrom(Used(d), 1)), developerId, m)
  }

  function AddAs(d: Depot, id: string, developerId: string, m: Model): Depot {
    d.(fleet := d.fleet[id := FreshUnit(m)],
       extended := d.extended[id := Extended(m.modelId, developerId)],
       history := d.history + [Sale(id, m.modelId, developerId, m.price)])
  }

  function AddUnits(d: Depot, developerId: string, m: Model, n: nat): Depot {
    if n == 0 then d else AddOne(AddUnits(d, developerId, m, n - 1), developerId, m)
  }

  /** The units of the model in the catalogue at hand, if it is there, so many times. */
  function Stocked(d: Depot, developerId: string, modelId: string, quantity: int): Depot {
    if developerId !in d.catalogs || FindModel(d.catalogs[developerId], modelId).None? then d
    else
      var model := d.catalogs[developerId][FindModel(d.catalogs[developerId], modelId).value];
      AddUnits(d, developerId, model, Units(quantity))
  }

  function Units(quantity: int): nat {
    if quantity < 0 then 0 else quantity
  }

  /** A developer missing from the cache makes the whole cache be fetched again. */
  function Loaded(catalogs: Catalogs, developerId: string, fetched: Catalogs): Catalogs {
    if developerId in catalogs then catalogs else fetched
  }

  function Refusal(catalogs: Catalogs, developerId: string, modelId: string, quantity: int): Option<Failure> {
    if developerId !in catalogs then Some(DeveloperNotFound)
    else
      var at := FindModel(catalogs[developerId], modelId);
      if at.None? then Some(ModelNotFound)
      else
        var available := catalogs[developerId][at.value].availableQuantity;
        if available < quantity then Some(InsufficientQuantity(available)) else None
  }

  function TakeStock(catalogs: Catalogs, developerId: string, at: nat, quantity: int): Catalogs
    requires developerId in catalogs && at < |catalogs[developerId]|
  {
    var m := catalogs[developerId][at];
    catalogs[developerId := catalogs[developerId][at := m.(availableQuantity := m.availableQuantity - quantity)]]
  }

  function PurchaseStep(d: Depot, developerId: string, modelId: string, quantity: int, fetched: Catalogs)
    : (Depot, Option<Failure>)
  {
    if developerId == "" || modelId == "" then (d, Some(MissingArguments))
    else
      var loaded := d.(catalogs := Loaded(d.catalogs, developerId, fetched));
      var refusal := Refusal(loaded.catalogs, developerId, modelId, quantity);
      if refusal.Some? then (loaded, refusal)
      else
        var at := FindModel(loaded.catalogs[developerId], modelId).value;
        var taken := loaded.(catalogs := TakeStock(loaded.catalogs, developerId, at, quantity));
        (AddUnits(taken, developerId, taken.catalogs[developerId][at], Units(quantity)), None)
  }

  // ----- the classes

  class DeveloperClient {
    var catalogs: Catalogs

    constructor ()
      ensures catalogs == map[]
    {
      catalogs := map[];
    }

    method PurchaseUas(developerId: string, modelId: string, quantity: int, fetched: Catalogs)
      returns (refusal: Option<Failure>)
      modifies this
      ensures var loaded := Loaded(old(catalogs), developerId, fetched);
              && refusal == Refusal(loaded, developerId, modelId, quantity)
              && (refusal.Some? ==> catalogs == loaded)
              && (refusal.None? ==>
                    catalogs == TakeStock(loaded, developerId, FindModel(loaded[developerId], modelId).value, quantity))
    {
      if developerId !in catalogs {
        catalogs := fetched;
      }
      if developerId !in catalogs {
        return Some(DeveloperNotFound);
      }
      var at := FindModel(catalogs[developerId], modelId);
      if at.None? {
        return Some(ModelNotFound);
      }
      var m := catalogs[developerId][at.value];
      if m.availableQuantity < quantity {
        return Some(InsufficientQuantity(m.availableQuantity));
      }
      var models := catalogs[developerId][at.value := m.(availableQuantity := m.availableQuantity - quantity)];
      catalogs := catalogs[developerId := models];
      return None;
    }
  }

  class FleetManager {
    const core: F.FleetManagerCore
    const client: DeveloperClient
    var extended: map<string, Extended>
    var purchaseHistory: seq<Sale>

    constructor (core: F.FleetManagerCore, client: DeveloperClient)
      requires core.Valid()
      ensures this.core == core && this.client == client && extended == map[] && purchaseHistory == []
    {
      this.core, this.client, extended, purchaseHistory := core, client, map[], [];
    }

    ghost function Books(): Depot
      reads this, core, client
    {
      Depot(core.fleet, extended, purchaseHistory, client.catalogs)
    }

    /** The unbounded search ends: at most one more try than there are ids in use. */
    method NextUasId() returns (id: string)
      requires core.Valid()
      ensures id == UasId(NextFrom(Used(Books()), 1))
    {
      var idx: nat := 1;
      ghost var used := Used(Books());
      while true
        invariant 1 <= idx && forall i: nat :: 1 <= i < idx ==> UasId(i) in used
        invariant NextFrom(used, idx) == NextFrom(used, 1)
        decreases |used| + 1 - idx
      {
        id := UasId(idx);
        if id !in core.units && id !in extended {
          return;
        }
        SearchIsBounded(used, idx + 1);
        idx := idx + 1;
      }
    }

    method AddFreshUas(developerId: string, model: Model) returns (id: string)
      requires core.Valid()
      modifies this, core
      ensures core.Valid() && Books() == AddOne(old(Books()), developerId, model)
      ensures purchaseHistory == old(purchaseHistory) + [Sale(id, model.modelId, developerId, model.price)]
    {
      hide UasId;
      var expiry := if model.certified && model.validUntil.Some? then model.validUntil.value else DEFAULT_EXPIRY;
      id := NextUasId();
      var reason := core.AddUas(id, model.certified, expiry, 1.0);
      extended := extended[id := Extended(model.modelId, developerId)];
      purchaseHistory := purchaseHistory + [Sale(id, model.modelId, developerId, model.price)];
    }

    /** Returns the ids added, in order; none when the developer or the model is not to be found. */
    method AddPurchasedUasToFleet(developerId: string, modelId: string, quantity: int) returns (added: seq<string>)
      requires core.Valid()
      modifies this, core
      ensures core.Valid()
      ensures Books() == Stocked(old(Books()), developerId, modelId, quantity)
      ensures |purchaseHistory| == |old(purchaseHistory)| + |added|
      ensures forall i :: 0 <= i < |added| ==> added[i] == purchaseHistory[|old(purchaseHistory)| + i].uasId
    {
      hide AddOne;
      added := [];
      if developerId !in client.catalogs || FindModel(client.catalogs[developerId], modelId).None? {
        return;
      }
      var model := client.catalogs[developerId][FindModel(client.catalogs[developerId], modelId).value];
      var n: nat := 0;
      while n < quantity
        invariant core.Valid() && n <= Units(quantity)
        invariant Books() == AddUnits(old(Books()), developerId, model, n)
        invariant |purchaseHistory| == |old(purchaseHistory)| + |added|
        invariant forall i :: 0 <= i < |added| ==> added[i] == purchaseHistory[|old(purchaseHistory)| + i].uasId
      {
        var id := AddFreshUas(developerId, model);
        added := added + [id];
        n := n + 1;
      }
    }

    method HandlePurchaseUas(developerId: string, modelId: string, quantity: int, fetched: Catalogs)
      returns (refusal: Option<Failure>)
      requires core.Valid()
      modifies this, core, client
      ensures core.Valid()
      ensures (Books(), refusal) == PurchaseStep(old(Books()), developerId, modelId, quantity, fetched)
    {
      if developerId == "" || modelId == "" {
        return Some(MissingArguments);
      }
      hide AddUnits;
      ghost var loaded := Loaded(client.catalogs, developerId, fetched);
      refusal := client.PurchaseUas(developerId, modelId, quantity, fetched);
      if refusal.None? {
        TakeStockTakes(loaded, developerId, modelId, quantity, developerId, modelId);
        var added := AddPurchasedUasToFleet(developerId, modelId, quantity);
      }
    }
  }

  // ----- what a purchase does

  /** Units were only added, under ids new to both tables; the old entries are as they were. */
  ghost predicate OnlyAdds(before: Depot, after: Depot, added: set<string>) {
    && (forall id <- added :: id !in before.fleet && id !in before.extended)
    && (forall id :: id in after.extended <==> id in before.extended || id in added)
    && (forall id :: id in after.fleet <==> id in before.fleet || id in added)
    && (forall id <- before.extended :: after.extended[id] == before.extended[id])
    && (forall id <- before.fleet :: after.fleet[id] == before.fleet[id])
  }

  /** Each of these units is fresh from the model, in the core and in the extended fleet: available,
      fully charged, held by nobody, and certified as the model is, as long as it is. */
  ghost predicate EntriesOf(d: Depot, ids: set<string>, developerId: string, m: Model) {
    forall id <- ids ::
      && id in d.extended && id in d.fleet
      && d.extended[id] == Extended(m.modelId, developerId)
      && d.fleet[id] == F.Unit(F.Available, m.certified,
                               if m.certified && m.validUntil != None then m.validUntil.value else "2027-01-01",
                               1.0, None)
  }

  /** The first numbers not in use name these ids, of three digits or more. */
  ghost predicate FirstFree(before: Depot, ids: set<string>) {
    forall id <- ids ::
      exists n: nat :: n > 0 && id == "UAS-" + Padded(n, 3) && forall i: nat :: 0 < i < n ==>
        UasId(i) in before.fleet || UasId(i) in before.extended || UasId(i) in ids
  }

  lemma AddsCompose(a: Depot, b: Depot, c: Depot, first: set<string>, second: set<string>)
    requires OnlyAdds(a, b, first) && OnlyAdds(b, c, second)
    ensures OnlyAdds(a, c, first + second) && |first + second| == |first| + |second|
  {
    assert first !! second;
  }

  lemma AddAsAdds(d: Depot, id: string, developerId: string, m: Model)
    requires id !in d.fleet && id !in d.extended
    ensures var d' := AddAs(d, id, developerId, m);
            OnlyAdds(d, d', {id}) && EntriesOf(d', {id}, developerId, m)
  {
  }

  lemma AddOneAdds(d: Depot, developerId: string, m: Model, id: string)
    requires id == UasId(NextFrom(Used(d), 1))
    ensures var d' := AddOne(d, developerId, m);
            && OnlyAdds(d, d', {id}) && EntriesOf(d', {id}, developerId, m)
            && d'.history == d.history + [Sale(id, m.modelId, developerId, m.price)]
            && d'.catalogs == d.catalogs
  {
    hide UasId, OnlyAdds, EntriesOf;
    assert id !in Used(d);
    AddAsAdds(d, id, developerId, m);
  }

  /** The ids under which so many units are added. */
  ghost function AddedIds(d: Depot, developerId: string, m: Model, n: nat): set<string> {
    if n == 0 then {}
    else AddedIds(d, developerId, m, n - 1) + {UasId(NextFrom(Used(AddUnits(d, developerId, m, n - 1)), 1))}
  }

  lemma {:induction false} AddUnitsAdds(d: Depot, developerId: string, m: Model, n: nat)
    ensures var d', added := AddUnits(d, developerId, m, n), AddedIds(d, developerId, m, n);
            && OnlyAdds(d, d', added) && |added| == n && d'.catalogs == d.catalogs
            && EntriesOf(d', added, developerId, m)
  {
    hide AddOne, UasId, OnlyAdds, EntriesOf;
    if n == 0 {
      NothingAdded(d, developerId, m);
    } else {
      AddUnitsAdds(d, developerId, m, n - 1);
      var p := AddUnits(d, developerId, m, n - 1);
      var id := UasId(NextFrom(Used(p), 1));
      AddOneAdds(p, developerId, m, id);
      AddsCompose(d, p, AddOne(p, developerId, m), AddedIds(d, developerId, m, n - 1), {id});
      EntriesCompose(p, AddOne(p, developerId, m), AddedIds(d, developerId, m, n - 1), id, developerId, m);
    }
  }

  lemma NothingAdded(d: Depot, developerId: string, m: Model)
    ensures OnlyAdds(d, d, {}) && EntriesOf(d, {}, developerId, m)
  {
  }

  lemma EntriesCompose(p: Depot, q: Depot, added: set<string>, id: string, developerId: string, m: Model)
    requires EntriesOf(p, added, developerId, m) && EntriesOf(q, {id}, developerId, m) && OnlyAdds(p, q, {id})
    ensures EntriesOf(q, added + {id}, developerId, m)
  {
  }

  lemma {:induction false} AddUnitsRecords(d: Depot, developerId: string, m: Model, n: nat)
    ensures var d' := AddUnits(d, developerId, m, n);
            && |d'.history| == |d.history| + n && d'.history[..|d.history|] == d.history
            && (forall k :: |d.history| <= k < |d'.history| ==>
                  d'.history[k] == Sale(d'.history[k].uasId, m.modelId, developerId, m.price)
                  && d'.history[k].uasId in AddedIds(d, developerId, m, n))
  {
    hide UasId, AddOne;
    if n > 0 {
      AddUnitsRecords(d, developerId, m, n - 1);
      var p := AddUnits(d, developerId, m, n - 1);
      AddOneAdds(p, developerId, m, UasId(NextFrom(Used(p), 1)));
    }
  }

  /** The stock of the model a purchase would take: the first of that name. */
  function Stock(catalogs: Catalogs, developerId: string, modelId: string): Option<int> {
    if developerId !in catalogs then None
    else
      var at := FindModel(catalogs[developerId], modelId);
      if at.None? then None else Some(catalogs[developerId][at.value].availableQuantity)
  }

  /** The ids of so many units are the first free ones. */
  lemma {:induction false} AddedIdsAreFirstFree(d: Depot, developerId: string, m: Model, n: nat)
    ensures FirstFree(d, AddedIds(d, developerId, m, n))
  {
    hide AddUnits, UasId, FirstFree, NextFrom, OnlyAdds, EntriesOf, Used;
    if n == 0 {
      NoneIsFirstFree(d);
    } else {
      AddedIdsAreFirstFree(d, developerId, m, n - 1);
      AddUnitsAdds(d, developerId, m, n - 1);
      hide AddedIds;
      OneMoreId(d, developerId, m, n);
      NextIsFirstFree(d, AddUnits(d, developerId, m, n - 1), AddedIds(d, developerId, m, n - 1));
    }
  }

  lemma OneMoreId(d: Depot, developerId: string, m: Model, n: nat)
    requires n > 0
    ensures AddedIds(d, developerId, m, n)
         == AddedIds(d, developerId, m, n - 1) + {UasId(NextFrom(Used(AddUnits(d, developerId, m, n - 1)), 1))}
  {
    hide AddUnits, UasId, NextFrom, Used;
  }

  lemma NextIsFirstFree(d: Depot, p: Depot, ids: set<string>)
    requires FirstFree(d, ids) && OnlyAdds(d, p, ids)
    ensures FirstFree(d, ids + {UasId(NextFrom(Used(p), 1))})
  {
    hide UasId, FirstFree, OnlyAdds, Used;
    var next := NextFrom(Used(p), 1);
    UasIdMeans(next);
    TakenBefore(d, p, ids, next);
    OneMoreFirstFree(d, ids, next);
  }

  lemma NoneIsFirstFree(d: Depot)
    ensures FirstFree(d, {})
  {
  }

  lemma TakenBefore(d: Depot, p: Depot, ids: set<string>, n: nat)
    requires OnlyAdds(d, p, ids) && forall i: nat :: 1 <= i < n ==> UasId(i) in Used(p)
    ensures forall i: nat :: 0 < i < n ==> UasId(i) in d.fleet || UasId(i) in d.extended || UasId(i) in ids
  {
    hide UasId;
  }

  lemma UasIdMeans(n: nat)
    ensures UasId(n) == "UAS-" + Padded(n, 3)
    ensures UasId(1) == "UAS-001"
  {
    assert Decimal(1) == "1";
    PadToShape("1", 3);
    assert seq(2, _ => '0') + "1" == "001";
    assert "UAS-" + "001" == "UAS-001";
  }

  lemma OneMoreFirstFree(d: Depot, ids: set<string>, n: nat)
    requires FirstFree(d, ids) && n > 0 && UasId(n) == "UAS-" + Padded(n, 3)
    requires forall i: nat :: 0 < i < n ==> UasId(i) in d.fleet || UasId(i) in d.extended || UasId(i) in ids
    ensures FirstFree(d, ids + {UasId(n)})
  {
    hide UasId;
    forall id | id in ids + {UasId(n)}
      ensures exists k: nat :: k > 0 && id == "UAS-" + Padded(k, 3) && forall i: nat :: 0 < i < k ==>
                UasId(i) in d.fleet || UasId(i) in d.extended || UasId(i) in ids + {UasId(n)}
    {
      if id in ids {
        var k: nat :| k > 0 && id == "UAS-" + Padded(k, 3) && forall i: nat :: 0 < i < k ==>
          UasId(i) in d.fleet || UasId(i) in d.extended || UasId(i) in ids;
      }
    }
  }

  /** The first model of this name in the developer's catalogue, fetched anew if it was missing. */
  ghost predicate IsOffer(catalogs: Catalogs, developerId: string, modelId: string, m: Model) {
    developerId in catalogs && m.modelId == modelId && exists at: nat :: IsFirst(catalogs[developerId], at, m)
  }

  predicate IsFirst(models: seq<Model>, at: nat, m: Model) {
    at < |models| && models[at] == m && forall i :: 0 <= i < at ==> models[i].modelId != m.modelId
  }

  /** A purchase that succeeds adds exactly the requested number of units, each under its own new
      id, to the core and the extended fleet, leaving every old entry untouched, with one sale each
      on record at the price of the model; one that is refused adds nothing. */
  lemma PurchaseDelivers(d: Depot, developerId: string, modelId: string, quantity: int, fetched: Catalogs)
    ensures var (d', refusal) := PurchaseStep(d, developerId, modelId, quantity, fetched);
            var catalogs := if developerId in d.catalogs then d.catalogs else fetched;
            var units := if quantity < 0 then 0 else quantity;
            && (refusal.Some? ==> d'.(catalogs := d.catalogs) == d)
            && (refusal.None? ==> exists added: set<string>, m: Model ::
                  IsOffer(catalogs, developerId, modelId, m) && Delivers(d, d', developerId, m, added, units))
  {
    hide AddUnits, UasId, OnlyAdds, EntriesOf, FirstFree;
    if PurchaseStep(d, developerId, modelId, quantity, fetched).1.None? {
      var loaded := d.(catalogs := Loaded(d.catalogs, developerId, fetched));
      var at := FindModel(loaded.catalogs[developerId], modelId).value;
      var taken := loaded.(catalogs := TakeStock(loaded.catalogs, developerId, at, quantity));
      var m := taken.catalogs[developerId][at];
      var d' := AddUnits(taken, developerId, m, Units(quantity));
      var added := AddedIds(taken, developerId, m, Units(quantity));
      AddUnitsAdds(taken, developerId, m, Units(quantity));
      AddUnitsRecords(taken, developerId, m, Units(quantity));
      AddedIdsAreFirstFree(taken, developerId, m, Units(quantity));
      SameTables(taken, d, d', added);
      var offer := loaded.catalogs[developerId][at];
      SameEntries(d', added, developerId, m, offer);
      assert IsFirst(loaded.catalogs[developerId], at, offer);
      assert Delivers(d, d', developerId, offer, added, Units(quantity));
    }
  }

  /** So many units of the model have been added, and sold, under the first free ids. */
  ghost predicate Delivers(d: Depot, d': Depot, developerId: string, m: Model, added: set<string>, n: nat) {
    && OnlyAdds(d, d', added) && |added| == n && FirstFree(d, added) && EntriesOf(d', added, developerId, m)
    && |d'.history| == |d.history| + n && d.history <= d'.history
    && forall k :: |d.history| <= k < |d'.history| ==>
         d'.history[k].uasId in added
         && (d'.history[k].modelId, d'.history[k].developerId, d'.history[k].price) == (m.modelId, developerId, m.price)
  }

  lemma SameEntries(d: Depot, ids: set<string>, developerId: string, m: Model, m': Model)
    requires EntriesOf(d, ids, developerId, m) && m' == m.(availableQuantity := m'.availableQuantity)
    ensures EntriesOf(d, ids, developerId, m')
  {
  }

  lemma SameTables(a: Depot, b: Depot, after: Depot, added: set<string>)
    requires a.fleet == b.fleet && a.extended == b.extended && OnlyAdds(a, after, added) && FirstFree(a, added)
    ensures OnlyAdds(b, after, added) && FirstFree(b, added)
  {
  }

  /** A purchase is refused exactly when a name is missing, the catalogue at hand has no such developer
      or no such model, or the first model of that name has too few left; else it succeeds. */
  lemma PurchaseSucceeds(d: Depot, developerId: string, modelId: string, quantity: int, fetched: Catalogs)
    ensures var refusal := PurchaseStep(d, developerId, modelId, quantity, fetched).1;
            var catalogs := if developerId in d.catalogs then d.catalogs else fetched;
            var named := developerId != "" && modelId != "";
            && (refusal == Some(MissingArguments) <==> !named)
            && (refusal == Some(DeveloperNotFound) <==> named && developerId !in catalogs)
            && (refusal == Some(ModelNotFound) <==>
                  named && developerId in catalogs && forall m <- catalogs[developerId] :: m.modelId != modelId)
            && (forall m :: named && IsOffer(catalogs, developerId, modelId, m) ==>
                  refusal == if m.availableQuantity < quantity then Some(InsufficientQuantity(m.availableQuantity))
                             else None)
  {
    hide AddUnits, TakeStock;
    var catalogs := Loaded(d.catalogs, developerId, fetched);
    forall at: nat, m: Model | developerId in catalogs && m.modelId == modelId && IsFirst(catalogs[developerId], at, m)
      ensures FindModel(catalogs[developerId], modelId) == Some(at)
    {
      var found := FindModel(catalogs[developerId], modelId);
      assert found.Some?;
      assert !(found.value < at) && !(at < found.value);
    }
  }

  /** It takes the quantity from the first model of that name and changes nothing else in any catalogue. */
  lemma PurchaseTakesStock(d: Depot, developerId: string, modelId: string, quantity: int, fetched: Catalogs,
                           at: nat, m: Model)
    requires PurchaseStep(d, developerId, modelId, quantity, fetched).1.None? && m.modelId == modelId
    requires var catalogs := if developerId in d.catalogs then d.catalogs else fetched;
             developerId in catalogs && IsFirst(catalogs[developerId], at, m)
    ensures var catalogs := if developerId in d.catalogs then d.catalogs else fetched;
            var m' := m.(availableQuantity := m.availableQuantity - quantity);
            PurchaseStep(d, developerId, modelId, quantity, fetched).0.catalogs
            == catalogs[developerId := catalogs[developerId][at := m']]
  {
    hide AddUnits;
    var loaded := d.(catalogs := Loaded(d.catalogs, developerId, fetched));
    var found := FindModel(loaded.catalogs[developerId], modelId).value;
    assert !(found < at) && !(at < found);
    var taken := loaded.(catalogs := TakeStock(loaded.catalogs, developerId, at, quantity));
    AddUnitsAdds(taken, developerId, taken.catalogs[developerId][at], Units(quantity));
  }

  lemma TakeStockTakes(catalogs: Catalogs, developerId: string, modelId: string, quantity: int, dev: string,
      name: string)
    requires developerId in catalogs && FindModel(catalogs[developerId], modelId).Some?
    ensures var c' := TakeStock(catalogs, developerId, FindModel(catalogs[developerId], modelId).value, quantity);
            && c'.Keys == catalogs.Keys
            && Stock(c', dev, name).Some? == Stock(catalogs, dev, name).Some?
            && (Stock(c', dev, name).Some? ==>
                  Stock(c', dev, name).value
                  == Stock(catalogs, dev, name).value - if (dev, name) == (developerId, modelId) then quantity else 0)
            && FindModel(c'[developerId], modelId) == FindModel(catalogs[developerId], modelId)
  {
    var at := FindModel(catalogs[developerId], modelId).value;
    var models := catalogs[developerId];
    var models' := TakeStock(catalogs, developerId, at, quantity)[developerId];
    assert forall i :: 0 <= i < |models| ==> models'[i].modelId == models[i].modelId;
    SameModel(models, models', modelId);
    SameModel(models, models', name);
  }

  lemma SameModel(a: seq<Model>, b: seq<Model>, modelId: string)
    requires |a| == |b| && forall i :: 0 <= i < |a| ==> a[i].modelId == b[i].modelId
    ensures FindModel(a, modelId) == FindModel(b, modelId)
  {
  }

  /** With the developer's catalogue at hand, stock plus units is conserved by a successful purchase
      exactly when the quantity asked for is not negative. */
  lemma StockPlusUnits(d: Depot, developerId: string, modelId: string, quantity: int, fetched: Catalogs)
    requires developerId in d.catalogs
    requires PurchaseStep(d, developerId, modelId, quantity, fetched).1.None?
    ensures var d' := PurchaseStep(d, developerId, modelId, quantity, fetched).0;
            && Stock(d.catalogs, developerId, modelId).Some? && Stock(d'.catalogs, developerId, modelId).Some?
            && (Stock(d'.catalogs, developerId, modelId).value + |d'.history| - |d.history|
                == Stock(d.catalogs, developerId, modelId).value
                <==> quantity >= 0)
  {
    hide AddUnits, OnlyAdds;
    TakeStockTakes(d.catalogs, developerId, modelId, quantity, developerId, modelId);
    var at := FindModel(d.catalogs[developerId], modelId).value;
    var taken := d.(catalogs := TakeStock(d.catalogs, developerId, at, quantity));
    AddUnitsAdds(taken, developerId, taken.catalogs[developerId][at], Units(quantity));
    AddUnitsRecords(taken, developerId, taken.catalogs[developerId][at], Units(quantity));
  }

  /** Buying -1 of a model with 5 in stock succeeds, adds nothing and leaves 6. */
  lemma NegativePurchaseRaisesStock()
    ensures var d := Depot(map[], map[], [], map["dev" := [Model("m", 1.0, false, None, 5)]]);
            PurchaseStep(d, "dev", "m", -1, map[])
            == (d.(catalogs := map["dev" := [Model("m", 1.0, false, None, 6)]]), None)
  {
    var models := [Model("m", 1.0, false, None, 5)];
    assert FindModel(models, "m") == Some(0);
    assert models[0 := models[0].(availableQuantity := 6)] == [Model("m", 1.0, false, None, 6)];
    assert TakeStock(map["dev" := models], "dev", 0, -1) == map["dev" := [Model("m", 1.0, false, None, 6)]];
  }

  // ----- runs of purchases

  datatype Order = Order(developerId: string, modelId: string, quantity: int, fetched: Catalogs)

  function Run(d: Depot, orders: seq<Order>): Depot {
    if orders == [] then d
    else
      var o := orders[|orders| - 1];
      PurchaseStep(Run(d, orders[..|orders| - 1]), o.developerId, o.modelId, o.quantity, o.fetched).0
  }

  /** How many units of a model the history shows sold. */
  function Sold(history: seq<Sale>, developerId: string, modelId: string): nat {
    if history == [] then 0
    else
      var last := history[|history| - 1];
      Sold(history[..|history| - 1], developerId, modelId)
      + if last.developerId == developerId && last.modelId == modelId then 1 else 0
  }

  lemma {:induction false} AddUnitsSold(d: Depot, dev: string, m: Model, n: nat, developerId: string, modelId: string)
    ensures Sold(AddUnits(d, dev, m, n).history, developerId, modelId)
         == Sold(d.history, developerId, modelId) + if (dev, m.modelId) == (developerId, modelId) then n else 0
    ensures AddUnits(d, dev, m, n).catalogs == d.catalogs
  {
    hide UasId, AddOne;
    if n > 0 {
      AddUnitsSold(d, dev, m, n - 1, developerId, modelId);
      var p := AddUnits(d, dev, m, n - 1);
      var id := UasId(NextFrom(Used(p), 1));
      AddOneAdds(p, dev, m, id);
      OneMoreSold(p.history, Sale(id, m.modelId, dev, m.price), developerId, modelId);
    }
  }

  lemma OneMoreSold(history: seq<Sale>, sale: Sale, developerId: string, modelId: string)
    ensures Sold(history + [sale], developerId, modelId)
         == Sold(history, developerId, modelId)
            + if (sale.developerId, sale.modelId) == (developerId, modelId) then 1 else 0
  {
    assert (history + [sale])[..|history|] == history;
  }

  lemma StepConserves(d: Depot, o: Order, developerId: string, modelId: string)
    requires o.quantity >= 0 && o.developerId in d.catalogs
    requires Stock(d.catalogs, developerId, modelId).Some?
    ensures var d' := PurchaseStep(d, o.developerId, o.modelId, o.quantity, o.fetched).0;
            && d'.catalogs.Keys == d.catalogs.Keys
            && Stock(d'.catalogs, developerId, modelId).Some?
            && Stock(d'.catalogs, developerId, modelId).value + Sold(d'.history, developerId, modelId)
               == Stock(d.catalogs, developerId, modelId).value + Sold(d.history, developerId, modelId)
  {
    hide AddUnits, FindModel;
    if PurchaseStep(d, o.developerId, o.modelId, o.quantity, o.fetched).1.None? {
      TakeStockTakes(d.catalogs, o.developerId, o.modelId, o.quantity, developerId, modelId);
      var at := FindModel(d.catalogs[o.developerId], o.modelId).value;
      var taken := d.(catalogs := TakeStock(d.catalogs, o.developerId, at, o.quantity));
      AddUnitsSold(taken, o.developerId, taken.catalogs[o.developerId][at], Units(o.quantity), developerId, modelId);
    }
  }

  /** Over any run of purchases between two reloads of the catalogues, whichever models they are for
      and whether they succeed or not: a model's stock plus the units sold of it stays the same. */
  lemma {:induction false} StockIsConserved(d: Depot, orders: seq<Order>, developerId: string, modelId: string)
    requires forall i :: 0 <= i < |orders| ==> orders[i].quantity >= 0 && orders[i].developerId in d.catalogs
    requires Stock(d.catalogs, developerId, modelId).Some?
    ensures var d' := Run(d, orders);
            && d'.catalogs.Keys == d.catalogs.Keys
            && Stock(d'.catalogs, developerId, modelId).Some?
            && Stock(d'.catalogs, developerId, modelId).value + Sold(d'.history, developerId, modelId)
               == Stock(d.catalogs, developerId, modelId).value + Sold(d.history, developerId, modelId)
  {
    hide PurchaseStep;
    if |orders| > 0 {
      var n := |orders| - 1;
      StockIsConserved(d, orders[..n], developerId, modelId);
      StepConserves(Run(d, orders[..n]), orders[n], developerId, modelId);
    }
  }

  /** The ids in the history are in the fleet and pairwise distinct. */
  ghost predicate SoldOnce(d: Depot) {
    && (forall i :: 0 <= i < |d.history| ==> d.history[i].uasId in d.extended)
    && (forall i, j :: 0 <= i < j < |d.history| ==> d.history[i].uasId != d.history[j].uasId)
  }

  lemma {:induction false} AddUnitsSoldOnce(d: Depot, developerId: string, m: Model, n: nat)
    requires SoldOnce(d)
    ensures SoldOnce(AddUnits(d, developerId, m, n))
  {
    hide UasId;
    if n > 0 {
      AddUnitsSoldOnce(d, developerId, m, n - 1);
      var p := AddUnits(d, developerId, m, n - 1);
      assert UasId(NextFrom(Used(p), 1)) !in Used(p);
    }
  }

  /** No id is ever sold twice, over any run of purchases with catalogue reloads anywhere. */
  lemma {:induction false} NoIdIsSoldTwice(d: Depot, orders: seq<Order>)
    requires SoldOnce(d)
    ensures SoldOnce(Run(d, orders))
  {
    if |orders| > 0 {
      var n, o := |orders| - 1, orders[|orders| - 1];
      NoIdIsSoldTwice(d, orders[..n]);
      var p := Run(d, orders[..n]);
      var loaded := p.(catalogs := Loaded(p.catalogs, o.developerId, o.fetched));
      if o.developerId != "" && o.modelId != ""
         && Refusal(loaded.catalogs, o.developerId, o.modelId, o.quantity).None? {
        var at := FindModel(loaded.catalogs[o.developerId], o.modelId).value;
        var taken := loaded.(catalogs := TakeStock(loaded.catalogs, o.developerId, at, o.quantity));
        AddUnitsSoldOnce(taken, o.developerId, taken.catalogs[o.developerId][at], Units(o.quantity));
      }
    }
  }
}
