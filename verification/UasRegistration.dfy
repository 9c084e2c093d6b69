/** Registered-aircraft ids of the demonstration world: numbers drawn from a counter per type and
    vendor, results merged in from elsewhere, and counters rebuilt by parsing the ids. */
module UasRegistration {
  import opened Wrappers
  import opened Strings

  datatype Entry = Entry(imei: Option<string>, uasType: Option<string>, vendorCode: Option<string>,
      firmwareVersion: Option<string>)

  type Counters = map<string, nat>

  type Registry = map<string, Entry>

  datatype World = World(counters: Counters, registry: Registry)

  /** The integer a text outside the plain decimal numerals denotes, if any. */
  type OtherNumerals = string -> Option<int>

  datatype Request = Request(uasType: string, vendorCode: string, imei: string, firmwareVersion: Option<string>)

  /** What an onboarding run hands back. */
  datatype Artifacts = Artifacts(standalone: Option<(string, Entry)>, purchased: seq<string>, imeis: seq<string>,
      common: Entry)

  predicate DashFree(s: string) {
    '-' !in s
  }

  function CounterKey(uasType: string, vendor: string): string {
    uasType + ":" + vendor
  }

  function RegisteredId(uasType: string, vendor: string, n: nat): string {
    "UAS-" + uasType + "-" + vendor + "-" + Padded(n, 6)
  }

  /** The counter an id belongs to and its number, when the id has four dash-separated parts. */
  function ParseId(other: OtherNumerals, id: string): Option<(string, int)> {
    var parts := Split(id, '-');
    if |parts| != 4 || parts[0] != "UAS" then None
    else if AllDigits(parts[3]) then Some((CounterKey(parts[1], parts[2]), NumeralValue(parts[3])))
    else
      var n := other(parts[3]);
      if n.None? then None else Some((CounterKey(parts[1], parts[2]), n.value))
  }

  function Get(counters: Counters, key: string): nat {
    if key in counters then counters[key] else 0
  }

  // ----- parsing undoes the id format

  lemma DigitsAreDashFree(n: nat)
    ensures DashFree(Padded(n, 6))
  {
    assert AllDigits(Padded(n, 6));
  }

  lemma IdParts(uasType: string, vendor: string, n: nat)
    requires DashFree(uasType) && DashFree(vendor)
    ensures Split(RegisteredId(uasType, vendor, n), '-') == ["UAS", uasType, vendor, Padded(n, 6)]
  {
    hide Split, Padded;
    DigitsAreDashFree(n);
    var digits := Padded(n, 6);
    SplitWord(digits, '-');
    SplitFirst(vendor, digits, '-');
    SplitFirst(uasType, vendor + ['-'] + digits, '-');
    SplitFirst("UAS", uasType + ['-'] + (vendor + ['-'] + digits), '-');
    Regroup(uasType, vendor, digits);
  }

  lemma Regroup(a: string, b: string, c: string)
    ensures "UAS-" + a + "-" + b + "-" + c == "UAS" + ['-'] + (a + ['-'] + (b + ['-'] + c))
  {
  }

  lemma ParseUndoesFormat(other: OtherNumerals, uasType: string, vendor: string, n: nat)
    requires DashFree(uasType) && DashFree(vendor)
    ensures ParseId(other, RegisteredId(uasType, vendor, n)) == Some((CounterKey(uasType, vendor), n))
  {
    IdParts(uasType, vendor, n);
    PaddedValue(n, 6);
  }

  /** An id is read only when it has four parts of which the first is UAS and the last a numeral. */
  lemma ParseMeans(other: OtherNumerals, parts: seq<string>)
    requires parts != [] && forall p <- parts :: DashFree(p)
    ensures ParseId(other, Join(parts, '-'))
         == if |parts| != 4 || parts[0] != "UAS" then None
            else if AllDigits(parts[3]) then Some((parts[1] + ":" + parts[2], NumeralValue(parts[3])))
            else if other(parts[3]) == None then None
            else Some((parts[1] + ":" + parts[2], other(parts[3]).value))
  {
    hide Join, Split;
    SplitJoin(parts, '-');
  }

  /** Dash-free type and vendor and the number can be read off an id. */
  lemma IdsAreDistinct(t: string, v: string, n: nat, t': string, v': string, n': nat)
    requires DashFree(t) && DashFree(v) && DashFree(t') && DashFree(v')
    requires RegisteredId(t, v, n) == RegisteredId(t', v', n')
    ensures t == t' && v == v' && n == n'
  {
    IdParts(t, v, n);
    IdParts(t', v', n');
    PaddedInjective(n, n', 6);
  }

  // ----- steps

  predicate ValidRequest(r: Request) {
    r.uasType != "" && r.vendorCode != "" && r.imei != ""
  }

  function NextId(w: World, r: Request): string {
    RegisteredId(r.uasType, r.vendorCode, Get(w.counters, CounterKey(r.uasType, r.vendorCode)) + 1)
  }

  function RegisterStep(w: World, r: Request): (World, Option<string>) {
    if !ValidRequest(r) then (w, None)
    else
      var key := CounterKey(r.uasType, r.vendorCode);
      var id := NextId(w, r);
      (World(w.counters[key := Get(w.counters, key) + 1],
             w.registry[id := Entry(Some(r.imei), Some(r.uasType), Some(r.vendorCode), r.firmwareVersion)]), Some(id))
  }

  /** What a rebuild does to the counters: no counter falls, none is below a number that parses
      out of the registry, and none is above both. */
  ghost predicate Synced(other: OtherNumerals, before: Counters, registry: Registry, after: Counters) {
    && (forall key <- before :: key in after && before[key] <= after[key])
    && (forall id <- registry :: ParseId(other, id).Some? ==>
          ParseId(other, id).value.0 in after && ParseId(other, id).value.1 <= after[ParseId(other, id).value.0])
    && (forall key <- after :: (key in before && after[key] == before[key])
                               || exists id :: id in registry && Contributes(other, id, key, after[key]))
  }

  /** The id accounts for the counter's value; a negative number counts as none. */
  predicate Contributes(other: OtherNumerals, id: string, key: string, value: nat) {
    var p := ParseId(other, id);
    p.Some? && p.value.0 == key && value == if p.value.1 < 0 then 0 else p.value.1
  }

  function ImeiAt(imeis: seq<string>, i: nat): Option<string> {
    if i < |imeis| then Some(imeis[i]) else None
  }

  /** Purchased ids already present keep their entry. */
  function AddPurchased(registry: Registry, a: Artifacts, n: nat): Registry
    requires n <= |a.purchased|
  {
    if n == 0 then registry
    else
      var r, id := AddPurchased(registry, a, n - 1), a.purchased[n - 1];
      if id in r then r else r[id := a.common.(imei := ImeiAt(a.imeis, n - 1))]
  }

  /** A standalone registration overwrites. */
  function WithStandalone(registry: Registry, a: Artifacts): Registry {
    if a.standalone.Some? && a.standalone.value.0 != "" then registry[a.standalone.value.0 := a.standalone.value.1]
    else registry
  }

  function MergedRegistry(registry: Registry, a: Artifacts): Registry {
    AddPurchased(WithStandalone(registry, a), a, |a.purchased|)
  }

  /** A registration that names type, vendor and number gets the next number of its type and vendor, six
      digits or more, and its entry is filed under that id; no other counter and no other entry moves. */
  lemma RegistrationMeans(w: World, r: Request)
    ensures var (w', id) := RegisterStep(w, r);
            var key := r.uasType + ":" + r.vendorCode;
            var n := 1 + if key in w.counters then w.counters[key] else 0;
            var name := "UAS-" + r.uasType + "-" + r.vendorCode + "-" + Padded(n, 6);
            if r.uasType == "" || r.vendorCode == "" || r.imei == "" then w' == w && id == None
            else
              && id == Some(name) && w'.counters == w.counters[key := n]
              && w'.registry == w.registry[name := Entry(Some(r.imei), Some(r.uasType), Some(r.vendorCode),
                                                         r.firmwareVersion)]
    ensures RegisteredId("AGRO", "SBD", 1) == "UAS-AGRO-SBD-000001"
  {
    assert Decimal(1) == "1";
    PadToShape("1", 6);
    assert seq(5, _ => '0') + "1" == "000001";
    assert "UAS-" + "AGRO" + "-" + "SBD" + "-" + "000001" == "UAS-AGRO-SBD-000001";
  }

  /** The entry of a purchased unit: what all have in common, and the number at the position where its id
      first stands. */
  predicate IsPurchase(a: Artifacts, n: nat, i: nat, id: string, e: Entry)
    requires n <= |a.purchased|
  {
    && i < n && a.purchased[i] == id && (forall j :: 0 <= j < i ==> a.purchased[j] != id)
    && e == Entry(if i < |a.imeis| then Some(a.imeis[i]) else None, a.common.uasType, a.common.vendorCode,
                  a.common.firmwareVersion)
  }

  lemma {:induction false} PurchasesAreAdded(registry: Registry, a: Artifacts, n: nat)
    requires n <= |a.purchased|
    ensures var after := AddPurchased(registry, a, n);
            && (forall id :: id in after <==> id in registry || id in a.purchased[..n])
            && (forall id <- registry :: after[id] == registry[id])
            && (forall id <- after :: id in registry || exists i: nat :: IsPurchase(a, n, i, id, after[id]))
  {
    if n > 0 {
      PurchasesAreAdded(registry, a, n - 1);
      var before, after := AddPurchased(registry, a, n - 1), AddPurchased(registry, a, n);
      assert a.purchased[..n] == a.purchased[..n - 1] + [a.purchased[n - 1]];
      forall id | id in after && id !in registry ensures exists i: nat :: IsPurchase(a, n, i, id, after[id]) {
        if id in before {
          var i: nat :| IsPurchase(a, n - 1, i, id, before[id]);
          assert IsPurchase(a, n, i, id, after[id]);
        } else {
          assert IsPurchase(a, n, n - 1, id, after[id]);
        }
      }
    }
  }

  /** After a merge the registry holds what it held, the unit registered on its own, whose entry is the
      new one, and every purchased unit; entries held before stay. */
  lemma MergeMeans(registry: Registry, a: Artifacts)
    ensures var after := MergedRegistry(registry, a);
            var own := if a.standalone.Some? && a.standalone.value.0 != "" then {a.standalone.value.0} else {};
            && (forall id :: id in after <==> id in registry || id in own || id in a.purchased)
            && (forall id <- own :: after[id] == a.standalone.value.1)
            && (forall id <- registry :: id !in own ==> after[id] == registry[id])
            && (forall id <- after :: id in registry || id in own
                                      || exists i: nat :: IsPurchase(a, |a.purchased|, i, id, after[id]))
  {
    PurchasesAreAdded(WithStandalone(registry, a), a, |a.purchased|);
    assert a.purchased[..|a.purchased|] == a.purchased;
  }

  // ----- the class

  class DemoWorld {
    const other: OtherNumerals
    var registrationCounters: Counters
    var uasRegistry: Registry

    constructor (other: OtherNumerals)
      ensures this.other == other && Now() == World(map[], map[])
    {
      this.other, registrationCounters, uasRegistry := other, map[], map[];
    }

    ghost function Now(): World
      reads this
    {
      World(registrationCounters, uasRegistry)
    }

    /** The copy of the world that a scenario's processes work on; this one does not see its changes. */
    method Launch() returns (copy: DemoWorld)
      ensures fresh(copy) && copy.other == other && copy.Now() == Now()
    {
      copy := new DemoWorld(other);
      copy.registrationCounters, copy.uasRegistry := registrationCounters, uasRegistry;
    }

    method OnUasRegistration(r: Request) returns (id: Option<string>)
      modifies this
      ensures (Now(), id) == RegisterStep(old(Now()), r)
    {
      if r.uasType == "" || r.vendorCode == "" || r.imei == "" {
        return None;
      }
      var key := CounterKey(r.uasType, r.vendorCode);
      var nextNumber := Get(registrationCounters, key) + 1;
      registrationCounters := registrationCounters[key := nextNumber];
      var registeredId := RegisteredId(r.uasType, r.vendorCode, nextNumber);
      uasRegistry := uasRegistry[registeredId := Entry(Some(r.imei), Some(r.uasType), Some(r.vendorCode),
                                                       r.firmwareVersion)];
      return Some(registeredId);
    }

    method SyncRegistrationCounters()
      modifies this`registrationCounters
      ensures Synced(other, old(registrationCounters), uasRegistry, registrationCounters)
    {
      ghost var before := registrationCounters;
      ghost var seen: Registry := map[];
      var todo := uasRegistry.Keys;
      while todo != {}
        invariant todo <= uasRegistry.Keys
        invariant seen == uasRegistry - todo
        invariant Synced(other, before, seen, registrationCounters)
      {
        var id :| id in todo;
        ghost var was, wasSeen := registrationCounters, seen;
        todo := todo - {id};
        seen := uasRegistry - todo;
        var parsed := ParseId(other, id);
        if parsed.Some? {
          var (key, num) := parsed.value;
          var current := Get(registrationCounters, key);
          registrationCounters := registrationCounters[key := if num > current then num else current];
        }
        assert seen == wasSeen[id := uasRegistry[id]];
        SyncOneMore(other, before, wasSeen, was, id, uasRegistry[id]);
      }
      assert seen == uasRegistry;
    }

    method MergeOnboardingIntoWorld(a: Artifacts)
      modifies this
      ensures uasRegistry == MergedRegistry(old(uasRegistry), a)
      ensures Synced(other, old(registrationCounters), uasRegistry, registrationCounters)
    {
      if a.standalone.Some? && a.standalone.value.0 != "" {
        uasRegistry := uasRegistry[a.standalone.value.0 := a.standalone.value.1];
      }
      ghost var start := uasRegistry;
      for i := 0 to |a.purchased|
        invariant registrationCounters == old(registrationCounters)
        invariant uasRegistry == AddPurchased(start, a, i)
      {
        var id := a.purchased[i];
        if id !in uasRegistry {
          uasRegistry := uasRegistry[id := a.common.(imei := ImeiAt(a.imeis, i))];
        }
      }
      SyncRegistrationCounters();
    }
  }

  /** The counters after looking at one more id. */
  function Raise(other: OtherNumerals, counters: Counters, id: string): Counters {
    var p := ParseId(other, id);
    if p.None? then counters
    else
      var current := Get(counters, p.value.0);
      counters[p.value.0 := if p.value.1 > current then p.value.1 else current]
  }

  lemma SyncOneMore(other: OtherNumerals, before: Counters, seen: Registry, counters: Counters, id: string, e: Entry)
    requires Synced(other, before, seen, counters)
    ensures Synced(other, before, seen[id := e], Raise(other, counters, id))
  {
    hide ParseId;
    var after, seen' := Raise(other, counters, id), seen[id := e];
    forall key | key in after
      ensures (key in before && after[key] == before[key])
              || exists x :: x in seen' && Contributes(other, x, key, after[key])
    {
      if key in counters && after[key] == counters[key] {
        if !(key in before && counters[key] == before[key]) {
          var x :| x in seen && Contributes(other, x, key, counters[key]);
          assert x in seen';
        }
      } else {
        assert id in seen' && Contributes(other, id, key, after[key]);
      }
    }
  }

  // ----- what counters must cover

  /** No counter is below the number of one of these ids, as far as its type and vendor are
      dash-free and can be registered. */
  ghost predicate CoversIds(counters: Counters, ids: set<string>) {
    forall t, v, n: nat :: Registrable(t, v) && RegisteredId(t, v, n) in ids ==> n <= Get(counters, CounterKey(t, v))
  }

  predicate Registrable(uasType: string, vendor: string) {
    uasType != "" && vendor != "" && DashFree(uasType) && DashFree(vendor)
  }

  predicate DashFreeRequest(r: Request) {
    ValidRequest(r) && DashFree(r.uasType) && DashFree(r.vendorCode)
  }

  ghost predicate CountersCover(w: World) {
    CoversIds(w.counters, w.registry.Keys)
  }

  /** A rebuild makes the counters cover every number from the registry alone, whatever they were. */
  lemma SyncCovers(other: OtherNumerals, before: Counters, w: World)
    requires Synced(other, before, w.registry, w.counters)
    ensures CountersCover(w)
  {
    hide ParseId, RegisteredId;
    forall t, v, n: nat | Registrable(t, v) && RegisteredId(t, v, n) in w.registry.Keys
      ensures n <= Get(w.counters, CounterKey(t, v))
    {
      ParseUndoesFormat(other, t, v, n);
    }
  }

  /** Registering moves its counter on, so that the id it issues is covered with the earlier ones. */
  lemma RegisterCovers(w: World, r: Request, ids: set<string>)
    requires CoversIds(w.counters, ids)
    ensures var (w', id) := RegisterStep(w, r);
            CoversIds(w'.counters, if id.Some? then ids + {id.value} else ids)
  {
    hide RegisteredId, CounterKey;
    if ValidRequest(r) {
      var w' := RegisterStep(w, r).0;
      var next := Get(w.counters, CounterKey(r.uasType, r.vendorCode)) + 1;
      forall t, v, n: nat | Registrable(t, v) && RegisteredId(t, v, n) in ids + {NextId(w, r)}
        ensures n <= Get(w'.counters, CounterKey(t, v))
      {
        if RegisteredId(t, v, n) !in ids {
          assert RegisteredId(t, v, n) == RegisteredId(r.uasType, r.vendorCode, next);
          SameIdSameCounter(t, v, n, r.uasType, r.vendorCode, next);
        }
      }
    }
  }

  /** An id of dash-free parts is written in no other way: parts with dashes make more of them. */
  lemma SameIdSameCounter(t: string, v: string, n: nat, t': string, v': string, n': nat)
    requires DashFree(t) && DashFree(v)
    requires RegisteredId(t, v, n) == RegisteredId(t', v', n')
    ensures t == t' && v == v' && n == n'
  {
    hide RegisteredId;
    IdDashes(t, v, n);
    IdDashes(t', v', n');
    NoDashes(t);
    NoDashes(v);
    NoDashes(t');
    NoDashes(v');
    IdsAreDistinct(t, v, n, t', v', n');
  }

  function Dashes(s: string): nat {
    if s == "" then 0 else (if s[0] == '-' then 1 else 0) + Dashes(s[1..])
  }

  lemma {:induction false} NoDashes(s: string)
    ensures Dashes(s) == 0 <==> DashFree(s)
  {
    if s != "" {
      NoDashes(s[1..]);
      assert s == [s[0]] + s[1..];
    }
  }

  lemma {:induction false} DashesAdd(a: string, b: string)
    ensures Dashes(a + b) == Dashes(a) + Dashes(b)
  {
    if a == "" {
      assert a + b == b;
    } else {
      DashesAdd(a[1..], b);
      assert (a + b)[1..] == a[1..] + b;
    }
  }

  lemma IdDashes(t: string, v: string, n: nat)
    ensures Dashes(RegisteredId(t, v, n)) == 3 + Dashes(t) + Dashes(v)
  {
    DigitsAreDashFree(n);
    var digits := Padded(n, 6);
    NoDashes(digits);
    NoDashes("UAS");
    assert "UAS-" == "UAS" + "-" && Dashes("-") == 1;
    DashesAdd("UAS", "-");
    DashesAdd("UAS-", t);
    DashesAdd("UAS-" + t, "-");
    DashesAdd("UAS-" + t + "-", v);
    DashesAdd("UAS-" + t + "-" + v, "-");
    DashesAdd("UAS-" + t + "-" + v + "-", digits);
  }

  // ----- covering is exactly what keeps a scenario from issuing an id again

  /** The world after a scenario's registrations. */
  function After(w: World, requests: seq<Request>): World {
    if requests == [] then w else RegisterStep(After(w, requests[..|requests| - 1]), requests[|requests| - 1]).0
  }

  /** Whatever a scenario started from this world registers, it is never given one of these ids. */
  ghost predicate NeverIssues(w: World, ids: set<string>) {
    forall requests: seq<Request>, r: Request :: DashFreeRequest(r) ==> NextId(After(w, requests), r) !in ids
  }

  lemma {:induction false} CountersOnlyRise(w: World, requests: seq<Request>, key: string)
    ensures Get(After(w, requests).counters, key) >= Get(w.counters, key)
  {
    hide CounterKey, RegisteredId;
    if requests != [] {
      CountersOnlyRise(w, requests[..|requests| - 1], key);
    }
  }

  lemma {:induction false} RepeatedRequests(w: World, r: Request, k: nat)
    requires ValidRequest(r)
    ensures var key := CounterKey(r.uasType, r.vendorCode);
            Get(After(w, seq(k, _ => r)).counters, key) == Get(w.counters, key) + k
  {
    hide CounterKey, RegisteredId;
    if k > 0 {
      RepeatedRequests(w, r, k - 1);
      assert seq(k, _ => r)[..k - 1] == seq(k - 1, _ => r);
    }
  }

  lemma CoveredIsNotIssued(w: World, ids: set<string>, requests: seq<Request>, r: Request)
    requires CoversIds(w.counters, ids) && DashFreeRequest(r)
    ensures NextId(After(w, requests), r) !in ids
  {
    hide RegisteredId, After;
    var key := CounterKey(r.uasType, r.vendorCode);
    CountersOnlyRise(w, requests, key);
    assert Registrable(r.uasType, r.vendorCode);
  }

  lemma UncoveredIsIssued(w: World, ids: set<string>, t: string, v: string, n: nat)
    requires Registrable(t, v) && RegisteredId(t, v, n) in ids && n > Get(w.counters, CounterKey(t, v))
    ensures !NeverIssues(w, ids)
  {
    hide RegisteredId, CounterKey, After;
    var r := Request(t, v, "imei", None);
    var requests := seq(n - Get(w.counters, CounterKey(t, v)) - 1, _ => r);
    RepeatedRequests(w, r, |requests|);
    assert DashFreeRequest(r) && NextId(After(w, requests), r) in ids;
  }

  /** A scenario started from a world is kept from issuing any of these ids again, whatever it
      registers, exactly when the counters of that world cover them. */
  lemma CoveringIsExact(w: World, ids: set<string>)
    ensures NeverIssues(w, ids) <==> CoversIds(w.counters, ids)
  {
    hide RegisteredId, NextId, After;
    if CoversIds(w.counters, ids) {
      forall requests: seq<Request>, r: Request | DashFreeRequest(r) ensures NextId(After(w, requests), r) !in ids {
        CoveredIsNotIssued(w, ids, requests, r);
      }
    } else {
      var t, v, n: nat :|
        Registrable(t, v) && RegisteredId(t, v, n) in ids && n > Get(w.counters, CounterKey(t, v));
      UncoveredIsIssued(w, ids, t, v, n);
    }
  }

  // ----- runs of scenarios

  /** The saved world, the copy the regulator's process works on while a scenario runs, and every id
      issued so far. */
  datatype Demo = Demo(saved: World, copy: Option<World>, issued: set<string>)

  /** One scenario at a time: its processes start on a copy of the saved world, loaded as it is;
      when it completes, its artifacts are merged into the saved world and the copy is dropped; when
      it fails, or registers nothing to merge, only the copy is dropped. A reset starts afresh. */
  datatype Event = Launch | Registration(request: Request) | Finish(artifacts: Artifacts) | Abandon | Reset

  ghost predicate Next(other: OtherNumerals, d: Demo, e: Event, d': Demo) {
    match e
    case Launch => d' == if d.copy.None? then d.(copy := Some(d.saved)) else d
    case Registration(r) => d' == if d.copy.None? then d else Registered(d, r)
    case Finish(a) =>
      if d.copy.None? then d' == d
      else
        && d'.copy.None? && d'.issued == d.issued
        && d'.saved.registry == MergedRegistry(d.saved.registry, a)
        && Synced(other, d.saved.counters, d'.saved.registry, d'.saved.counters)
    case Abandon => d' == d.(copy := None)
    case Reset => d' == if d.copy.None? then d.(saved := World(map[], map[])) else d
  }

  function Registered(d: Demo, r: Request): Demo
    requires d.copy.Some?
  {
    var (w, id) := RegisterStep(d.copy.value, r);
    d.(copy := Some(w), issued := if id.Some? then d.issued + {id.value} else d.issued)
  }

  /** The saved counters cover every saved id and every id ever issued. */
  ghost predicate Covered(d: Demo) {
    CoversIds(d.saved.counters, d.saved.registry.Keys + d.issued)
  }

  ghost predicate IsRun(other: OtherNumerals, demos: seq<Demo>, events: seq<Event>) {
    && |demos| == |events| + 1
    && demos[0].copy.None? && demos[0].issued == {}
    && forall i :: 0 <= i < |events| ==> Next(other, demos[i], events[i], demos[i + 1])
  }

  /** Every world that a scenario is started from is covered at that moment. */
  ghost predicate LaunchedCovered(demos: seq<Demo>, events: seq<Event>)
    requires |demos| == |events| + 1
  {
    forall i :: 0 <= i < |events| && events[i].Launch? && demos[i].copy.None? ==> Covered(demos[i])
  }

  ghost predicate RunningCovered(d: Demo) {
    d.copy.Some? ==> CoversIds(d.copy.value.counters, d.copy.value.registry.Keys + d.issued)
  }

  lemma RegistrationStaysCovered(d: Demo, r: Request)
    requires d.copy.Some? && RunningCovered(d)
    ensures RunningCovered(Registered(d, r))
  {
    hide CoversIds, NextId;
    var w, d' := d.copy.value, Registered(d, r);
    RegisterCovers(w, r, w.registry.Keys + d.issued);
    if ValidRequest(r) {
      assert d'.copy.value.registry.Keys + d'.issued == w.registry.Keys + d.issued + {NextId(w, r)};
    }
  }

  lemma {:induction false} EveryScenarioIsCovered(other: OtherNumerals, demos: seq<Demo>, events: seq<Event>, i: nat)
    requires IsRun(other, demos, events) && LaunchedCovered(demos, events) && i <= |events|
    ensures RunningCovered(demos[i])
  {
    hide CoversIds, Registered, Synced, MergedRegistry;
    if i > 0 {
      EveryScenarioIsCovered(other, demos, events, i - 1);
      var d, e := demos[i - 1], events[i - 1];
      assert Next(other, d, e, demos[i]);
      if e.Registration? && d.copy.Some? {
        RegistrationStaysCovered(d, e.request);
      }
    }
  }

  /** A registration of a running scenario that names a dash-free type and vendor. */
  predicate Registers(demos: seq<Demo>, events: seq<Event>, i: nat)
    requires |demos| == |events| + 1 && i < |events|
  {
    demos[i].copy.Some? && events[i].Registration? && DashFreeRequest(events[i].request)
  }

  function IssuedAt(demos: seq<Demo>, events: seq<Event>, i: nat): string
    requires |demos| == |events| + 1 && i < |events| && Registers(demos, events, i)
  {
    NextId(demos[i].copy.value, events[i].request)
  }

  /** In any run whose scenarios are launched from covered worlds, a registration is given an id
      that was never issued before and is not in the registry, so no entry is overwritten. */
  lemma FreshIdIsNew(other: OtherNumerals, demos: seq<Demo>, events: seq<Event>, i: nat)
    requires IsRun(other, demos, events) && LaunchedCovered(demos, events)
    requires i < |events| && Registers(demos, events, i)
    ensures IssuedAt(demos, events, i) !in demos[i].issued
    ensures var w := demos[i].copy.value;
            && IssuedAt(demos, events, i) !in w.registry
            && demos[i + 1].copy.Some?
            && forall id <- w.registry ::
                 id in demos[i + 1].copy.value.registry && demos[i + 1].copy.value.registry[id] == w.registry[id]
  {
    hide RegisteredId;
    EveryScenarioIsCovered(other, demos, events, i);
    var w := demos[i].copy.value;
    CoveredIsNotIssued(w, w.registry.Keys + demos[i].issued, [], events[i].request);
    assert Next(other, demos[i], events[i], demos[i + 1]);
  }

  lemma {:induction false} IssuedStays(other: OtherNumerals, demos: seq<Demo>, events: seq<Event>, i: nat, j: nat)
    requires IsRun(other, demos, events) && i <= j <= |events|
    ensures demos[i].issued <= demos[j].issued
  {
    hide Synced, MergedRegistry, RegisterStep;
    if i < j {
      IssuedStays(other, demos, events, i, j - 1);
      assert Next(other, demos[j - 1], events[j - 1], demos[j]);
    }
  }

  /** No id is issued twice, in one scenario or in different ones, when every world a scenario is
      launched from is covered. */
  lemma NoIdIsReissued(other: OtherNumerals, demos: seq<Demo>, events: seq<Event>, i: nat, j: nat)
    requires IsRun(other, demos, events) && LaunchedCovered(demos, events)
    requires i < j < |events| && Registers(demos, events, i) && Registers(demos, events, j)
    ensures IssuedAt(demos, events, i) != IssuedAt(demos, events, j)
  {
    assert Next(other, demos[i], events[i], demos[i + 1]);
    assert IssuedAt(demos, events, i) in demos[i + 1].issued;
    IssuedStays(other, demos, events, i + 1, j);
    FreshIdIsNew(other, demos, events, j);
  }

  /** And the condition is exact: from a state at rest, some scenario is given an id that was issued
      before or is on file, unless the saved world is covered. */
  lemma UncoveredLaunchMayReissue(d: Demo)
    ensures Covered(d) <==> NeverIssues(d.saved, d.saved.registry.Keys + d.issued)
  {
    CoveringIsExact(d.saved, d.saved.registry.Keys + d.issued);
  }

  // ----- how worlds come to be covered

  /** After a merge the saved world is covered exactly when it covers the ids that did not reach it. */
  lemma FinishCovers(other: OtherNumerals, d: Demo, a: Artifacts, d': Demo)
    requires d.copy.Some? && Next(other, d, Finish(a), d')
    ensures CountersCover(d'.saved)
    ensures Covered(d') <==> CoversIds(d'.saved.counters, d.issued - d'.saved.registry.Keys)
    ensures forall id <- d.saved.registry :: id in d'.saved.registry
  {
    hide RegisteredId, Synced;
    SyncCovers(other, d.saved.counters, d'.saved);
    PurchasesAreAdded(WithStandalone(d.saved.registry, a), a, |a.purchased|);
  }

  /** Whenever no scenario runs, every id issued so far has been merged into the saved world. */
  ghost predicate AllMerged(demos: seq<Demo>) {
    forall i :: 0 <= i < |demos| && demos[i].copy.None? ==> demos[i].issued <= demos[i].saved.registry.Keys
  }

  lemma {:induction false} SavedWorldsCover(other: OtherNumerals, demos: seq<Demo>, events: seq<Event>, i: nat)
    requires IsRun(other, demos, events) && CountersCover(demos[0].saved) && i <= |events|
    ensures CountersCover(demos[i].saved)
  {
    hide CoversIds, Synced, MergedRegistry, RegisterStep;
    if i > 0 {
      SavedWorldsCover(other, demos, events, i - 1);
      var d, e := demos[i - 1], events[i - 1];
      assert Next(other, d, e, demos[i]);
      if e.Finish? && d.copy.Some? {
        FinishCovers(other, d, e.artifacts, demos[i]);
      } else if e.Reset? {
        EmptyWorldIsCovered();
      }
    }
  }

  lemma EmptyWorldIsCovered()
    ensures CountersCover(World(map[], map[]))
  {
  }

  /** If the first world loaded is covered and every issued id reaches a merge, every scenario is
      launched from a covered world: the rebuild from the registry alone carries the counters from
      one scenario to the next, the copy that held them being dropped. */
  lemma MergingKeepsCovered(other: OtherNumerals, demos: seq<Demo>, events: seq<Event>)
    requires IsRun(other, demos, events) && CountersCover(demos[0].saved) && AllMerged(demos)
    ensures LaunchedCovered(demos, events)
  {
    hide CoversIds, Next;
    forall i | 0 <= i < |events| && events[i].Launch? && demos[i].copy.None? ensures Covered(demos[i]) {
      SavedWorldsCover(other, demos, events, i);
      assert demos[i].saved.registry.Keys + demos[i].issued == demos[i].saved.registry.Keys;
    }
  }

  // ----- the two ways to launch from a world that is not covered

  /** A saved world that holds an id but not its counter: loading rebuilds nothing, and the next
      registration of that type and vendor gets the id again. */
  lemma LoadedWithoutCounterReissues(r: Request)
    requires ValidRequest(r)
    ensures var w := World(map[], RegisterStep(World(map[], map[]), r).0.registry);
            NextId(w, r) in w.registry && NextId(w, r) == NextId(World(map[], map[]), r)
    ensures DashFreeRequest(r) ==> !CountersCover(World(map[], RegisterStep(World(map[], map[]), r).0.registry))
  {
    hide RegisteredId, CounterKey;
    var w := World(map[], RegisterStep(World(map[], map[]), r).0.registry);
    assert NextId(w, r) == RegisteredId(r.uasType, r.vendorCode, 1);
    if DashFreeRequest(r) {
      assert Registrable(r.uasType, r.vendorCode);
    }
  }

  /** A scenario that registers a unit and then fails before its merge: nothing is saved, and the
      next scenario issues the same id. */
  lemma AbandonedIdIsReissued(other: OtherNumerals, r: Request)
    requires DashFreeRequest(r)
    ensures exists demos: seq<Demo>, events: seq<Event> ::
              && events == [Launch, Registration(r), Abandon, Launch, Registration(r)]
              && IsRun(other, demos, events) && CountersCover(demos[0].saved)
              && Registers(demos, events, 1) && Registers(demos, events, 4)
              && IssuedAt(demos, events, 1) == IssuedAt(demos, events, 4)
  {
    hide RegisteredId, CounterKey;
    var empty := World(map[], map[]);
    EmptyWorldIsCovered();
    var events := [Launch, Registration(r), Abandon, Launch, Registration(r)];
    var d0 := Demo(empty, None, {});
    var d1 := d0.(copy := Some(empty));
    var d2 := Registered(d1, r);
    var d3 := d2.(copy := None);
    var d4 := d3.(copy := Some(empty));
    var demos := [d0, d1, d2, d3, d4, Registered(d4, r)];
    assert forall i :: 0 <= i < |events| ==> Next(other, demos[i], events[i], demos[i + 1]);
    assert IsRun(other, demos, events);
  }

  // ----- why dashes must be excluded

  /** Two registrations whose types and vendors divide at different dashes get the same id. */
  lemma DashedIdsCollide(imei: string, imei': string)
    requires imei != "" && imei' != "" && imei != imei'
    ensures var first, second := Request("A-B", "C", imei, None), Request("A", "B-C", imei', None);
            var w1, w2 := RegisterStep(World(map[], map[]), first).0,
                RegisterStep(RegisterStep(World(map[], map[]), first).0, second).0;
            var id := NextId(World(map[], map[]), first);
            && id in w1.registry && w1.registry[id].imei == Some(imei)
            && id in w2.registry && w2.registry[id].imei == Some(imei')
  {
    hide Padded;
    assert CounterKey("A-B", "C")[1] == '-' && CounterKey("A", "B-C")[1] == ':';
    assert RegisteredId("A-B", "C", 1) == RegisteredId("A", "B-C", 1);
  }

  /** An id with more than three dashes is skipped by the rebuild: a lost counter stays lost. */
  lemma DashedIdsAreSkipped(other: OtherNumerals, t: string, v: string, n: nat)
    requires !DashFree(t) || !DashFree(v)
    ensures ParseId(other, RegisteredId(t, v, n)) == None
  {
    IdDashes(t, v, n);
    NoDashes(t);
    NoDashes(v);
    PartsAreDashes(RegisteredId(t, v, n));
  }

  lemma {:induction false} PartsAreDashes(s: string)
    ensures |Split(s, '-')| == Dashes(s) + 1
  {
    if s != "" {
      PartsAreDashes(s[1..]);
    }
  }

  /** Hence, for such a type or vendor, even an id that was merged is issued again: the rebuild
      after the merge raises no counter for it. */
  lemma MergedDashedIdIsReissued(other: OtherNumerals, r: Request, e: Entry)
    requires ValidRequest(r) && (!DashFree(r.uasType) || !DashFree(r.vendorCode))
    ensures var empty := World(map[], map[]);
            var a := Artifacts(Some((NextId(empty, r), e)), [], [], e);
            var saved := World(map[], MergedRegistry(map[], a));
            var d := Registered(Demo(empty, Some(empty), {}), r);
            && Next(other, d, Finish(a), Demo(saved, None, {NextId(empty, r)}))
            && NextId(saved, r) == NextId(empty, r) && NextId(saved, r) in saved.registry
  {
    hide Padded;
    DashedIdsAreSkipped(other, r.uasType, r.vendorCode, 1);
    assert NextId(World(map[], map[]), r) == RegisteredId(r.uasType, r.vendorCode, 1);
  }
}
