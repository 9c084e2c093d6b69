/** Dispatchers, gateways and the bus put together: what a caller can receive end to end, and
    through a gateway that nests a second call. */
module Networks {
  import opened Wrappers
  import opened Dispatch
  import opened RequestReply

  // ----- end to end

  /** A request on its way: the topic it is published on and the message. */
  datatype Request = Request(topic: string, message: Message)

  /** A gateway's call on behalf of a request it is handling. */
  datatype Nested = Nested(gate: Identity, inner: string)

  type Requests = map<string, Request>
  type Served = map<string, (Identity, Option<Outcome>)>

  /** The pending tables of all processes put together (call ids are unique across them) and
      everything they talk to: the requests made, those on their way, those a gateway is waiting
      for a component to answer, what each handler did, and every response ever sent. */
  datatype Network = Network(
    bus: BusState, requests: Requests, inFlight: set<string>, nested: map<string, Nested>,
    served: Served, replies: seq<Message>)

  /** The topic responses are sent to, and the routing tables of the gateways. */
  datatype Setup = Setup(reply: string, gates: map<Identity, map<string, string>>)
  {
    /** This gateway passes the action on to a component. */
    predicate Routes(gate: Identity, action: string) {
      gate in gates && action in gates[gate] && gates[gate][action] != "" && action != ""
    }

    /** A gateway answers a routed action that names no topic by itself. */
    function Handled(to: Identity, m: Message, outcome: Option<Outcome>): Option<Outcome> {
      if to in gates && m.action in gates[to] then Some(Proxy(gates[to], m, None)) else outcome
    }

    function Addressed(m: Message, id: string): Message {
      m.(correlationId := Some(id), replyTo := Some(reply))
    }

    /** The inner request a gateway makes for this one. */
    function InnerRequest(gate: Identity, m: Message, inner: string): Request
      requires Routes(gate, m.action)
    {
      Request(gates[gate][m.action], Addressed(InnerMessage(gate, m), inner))
    }
  }

  datatype NetworkEvent =
    | Send(id: string, topic: string, message: Message)  // a caller issues a request
    | Sent(id: string, ok: bool, delivered: bool)        // publishing it succeeds, or fails with or without effect
    | Deliver(id: string, to: Identity, outcome: Option<Outcome>)  // a dispatcher on its topic handles it
    | Nest(id: string, gate: Identity, inner: string)    // a gateway handling it issues its inner request
    | Unnest(id: string)                                 // the inner call has returned and the gateway answers
    | DeliverReply(index: nat)                           // any response ever sent arrives, perhaps again
    | Local(event: Event)                                // a time-out, clean-up or collection at a caller

  const INITIAL_NETWORK := Network(INITIAL_BUS, map[], {}, map[], map[], [])

  function IssueRequest(n: Network, id: string, request: Request): Network {
    n.(bus := RequestReply.Step(n.bus, Issue(id)), requests := n.requests[id := request])
  }

  function Serve(n: Network, id: string, to: Identity, outcome: Option<Outcome>): Network
    requires id in n.requests
  {
    var r := Response(to, n.requests[id].message, outcome);
    n.(served := n.served[id := (to, outcome)], replies := if r.Some? then n.replies + [r.value] else n.replies)
  }

  predicate CanIssue(n: Network, id: string) {
    id !in n.bus.callers && id != ""
  }

  /** The request has arrived at a dispatcher listening on its topic. */
  predicate Arrives(n: Network, id: string, to: Identity) {
    id in n.inFlight && id in n.requests && n.requests[id].topic == to.topic
  }

  /** The result of the inner call a gateway made for this request, once that call has returned. */
  predicate InnerReturned(n: Network, id: string) {
    id in n.nested && n.nested[id].inner in n.bus.callers && n.bus.callers[n.nested[id].inner].phase.Returned?
  }

  function InnerResult(n: Network, id: string): Option<Message>
    requires InnerReturned(n, id)
  {
    n.bus.callers[n.nested[id].inner].phase.result
  }

  function NetStep(net: Setup, n: Network, e: NetworkEvent): Network {
    match e
    case Send(id, topic, m) =>
      if CanIssue(n, id) then IssueRequest(n, id, Request(topic, net.Addressed(m, id))) else n
    case Sent(id, ok, delivered) =>
      if !n.bus.In(id, Registered) then n
      else n.(bus := RequestReply.Step(n.bus, Publish(id, ok)),
              inFlight := if ok || delivered then n.inFlight + {id} else n.inFlight)
    case Deliver(id, to, outcome) =>
      if !Arrives(n, id, to) || net.Routes(to, n.requests[id].message.action) then n
      else Serve(n.(inFlight := n.inFlight - {id}), id, to, net.Handled(to, n.requests[id].message, outcome))
    case Nest(id, gate, inner) =>
      if !Arrives(n, id, gate) || !net.Routes(gate, n.requests[id].message.action) || !CanIssue(n, inner) then n
      else IssueRequest(n.(inFlight := n.inFlight - {id}, nested := n.nested[id := Nested(gate, inner)]),
                        inner, net.InnerRequest(gate, n.requests[id].message, inner))
    case Unnest(id) =>
      if !InnerReturned(n, id) || id in n.served || id !in n.requests || n.nested[id].gate !in net.gates then n
      else
        var gate := n.nested[id].gate;
        Serve(n, id, gate, Some(Proxy(net.gates[gate], n.requests[id].message, InnerResult(n, id))))
    case DeliverReply(k) =>
      if k < |n.replies| then n.(bus := RequestReply.Step(n.bus, Reply(n.replies[k]))) else n
    case Local(l) =>
      if l.Timeout? || l.CleanUp? || l.Collect? then n.(bus := RequestReply.Step(n.bus, l)) else n
  }

  function NetRun(net: Setup, events: seq<NetworkEvent>): Network {
    if events == [] then INITIAL_NETWORK
    else NetStep(net, NetRun(net, events[..|events| - 1]), events[|events| - 1])
  }

  /** The response to call `id`, as determined by who served it and how. */
  function OwnResponse(requests: Requests, served: Served, id: string): Option<Message> {
    if id in served && id in requests then Response(served[id].0, requests[id].message, served[id].1) else None
  }

  ghost predicate AllOwn(requests: Requests, served: Served, ms: seq<Message>) {
    forall m <- ms ::
      m.correlationId.Some? && m.correlationId.value in served
      && OwnResponse(requests, served, m.correlationId.value) == Some(m)
  }

  /** A request is registered, on its way, at a gateway or served: one after the other. */
  ghost predicate InOnePlace(n: Network) {
    && n.requests.Keys == n.bus.callers.Keys
    && n.served.Keys <= n.requests.Keys && n.inFlight <= n.requests.Keys && n.nested.Keys <= n.requests.Keys
    && n.inFlight !! n.served.Keys && n.inFlight !! n.nested.Keys
    && (forall id <- n.bus.callers :: n.bus.callers[id].phase.Registered? ==>
          id !in n.inFlight && id !in n.served && id !in n.nested)
  }

  /** Every response in a future or on its way is the one its own request earned. */
  ghost predicate OwnResponses(n: Network) {
    && (forall id <- n.requests :: n.requests[id].message.correlationId == Some(id))
    && AllOwn(n.requests, n.served, n.replies)
    && (forall i :: 0 <= i < |n.bus.futures| ==> AllOwn(n.requests, n.served, n.bus.futures[i]))
  }

  ghost predicate OnlyOwnReplies(n: Network) {
    Consistent(n.bus) && InOnePlace(n) && OwnResponses(n)
  }

  /** What the rest of the network needs to know about one step of the bus. */
  lemma BusStep(s: BusState, e: Event)
    requires Consistent(s)
    ensures var s' := RequestReply.Step(s, e);
            && Consistent(s')
            && s'.callers.Keys == s.callers.Keys + (if e.Issue? && e.id != "" then {e.id} else {})
            && FuturesStep(s, s', e)
            && (forall id <- s'.callers :: s'.callers[id].phase.Registered? ==>
                  (if id in s.callers then s.callers[id].phase.Registered? && !(e.Publish? && e.id == id)
                   else e == Issue(id)))
            && (forall id <- s.callers :: s.callers[id].phase.Returned? ==> s'.callers[id].phase == s.callers[id].phase)
  {
    StepKeepsConsistent(s, e);
    StepCallers(s, e);
    StepMessages(s, e);
    ReturnedStays(s, e);
  }

  lemma ReturnedStays(s: BusState, e: Event)
    ensures forall id <- s.callers :: s.callers[id].phase.Returned? ==>
              id in RequestReply.Step(s, e).callers && RequestReply.Step(s, e).callers[id].phase == s.callers[id].phase
  {
  }

  /** More requests and more answers leave earlier responses what they were. */
  lemma OwnMonotone(n: Network, n': Network, ms: seq<Message>)
    requires AllOwn(n.requests, n.served, ms)
    requires forall id <- n.served :: id in n'.served && n'.served[id] == n.served[id]
    requires forall id <- n.served :: id in n.requests ==> id in n'.requests && n'.requests[id] == n.requests[id]
    ensures AllOwn(n'.requests, n'.served, ms)
  {
  }

  lemma EmptyIsOwn(n: Network)
    ensures AllOwn(n.requests, n.served, [])
  {
  }

  lemma BusOnlyStaysInPlace(n: Network, e: Event, inFlight: set<string>)
    requires Consistent(n.bus) && InOnePlace(n) && !e.Issue?
    requires inFlight == n.inFlight || (e.Publish? && n.bus.In(e.id, Registered) && inFlight == n.inFlight + {e.id})
    ensures InOnePlace(n.(bus := RequestReply.Step(n.bus, e), inFlight := inFlight))
  {
    hide RequestReply.Step, Consistent;
    BusStep(n.bus, e);
  }

  lemma BusOnlyOwns(n: Network, e: Event, inFlight: set<string>)
    requires Consistent(n.bus) && OwnResponses(n) && (e.Reply? ==> e.message in n.replies)
    ensures OwnResponses(n.(bus := RequestReply.Step(n.bus, e), inFlight := inFlight))
  {
    hide RequestReply.Step, Consistent;
    BusStep(n.bus, e);
    forall i | 0 <= i < |RequestReply.Step(n.bus, e).futures|
      ensures AllOwn(n.requests, n.served, RequestReply.Step(n.bus, e).futures[i])
    {
      if i < |n.bus.futures| {
        assert AllOwn(n.requests, n.served, n.bus.futures[i]);
      }
    }
  }

  /** A step of the bus alone: a publication may put its request in flight, a reply must be one
      that was sent. */
  lemma BusOnlyKeeps(n: Network, e: Event, inFlight: set<string>)
    requires OnlyOwnReplies(n) && !e.Issue?
    requires e.Reply? ==> e.message in n.replies
    requires inFlight == n.inFlight || (e.Publish? && n.bus.In(e.id, Registered) && inFlight == n.inFlight + {e.id})
    ensures OnlyOwnReplies(n.(bus := RequestReply.Step(n.bus, e), inFlight := inFlight))
  {
    hide RequestReply.Step, Consistent, InOnePlace, OwnResponses;
    StepKeepsConsistent(n.bus, e);
    BusOnlyStaysInPlace(n, e, inFlight);
    BusOnlyOwns(n, e, inFlight);
  }

  lemma IssueStaysInPlace(n: Network, id: string, request: Request)
    requires Consistent(n.bus) && InOnePlace(n) && CanIssue(n, id)
    ensures InOnePlace(IssueRequest(n, id, request))
  {
    hide RequestReply.Step, Consistent;
    BusStep(n.bus, Issue(id));
  }

  lemma IssueOwns(n: Network, id: string, request: Request)
    requires Consistent(n.bus) && InOnePlace(n) && OwnResponses(n)
    requires CanIssue(n, id) && request.message.correlationId == Some(id)
    ensures OwnResponses(IssueRequest(n, id, request))
  {
    hide RequestReply.Step, Consistent, AllOwn;
    BusStep(n.bus, Issue(id));
    var n' := IssueRequest(n, id, request);
    forall i | 0 <= i < |n'.bus.futures| ensures AllOwn(n'.requests, n'.served, n'.bus.futures[i]) {
      if i < |n.bus.futures| {
        OwnMonotone(n, n', n.bus.futures[i]);
      } else {
        EmptyIsOwn(n');
      }
    }
    OwnMonotone(n, n', n.replies);
  }

  lemma IssueKeeps(n: Network, id: string, request: Request)
    requires OnlyOwnReplies(n) && CanIssue(n, id) && request.message.correlationId == Some(id)
    ensures OnlyOwnReplies(IssueRequest(n, id, request))
  {
    hide RequestReply.Step, Consistent, InOnePlace, OwnResponses;
    StepKeepsConsistent(n.bus, Issue(id));
    IssueStaysInPlace(n, id, request);
    IssueOwns(n, id, request);
  }

  lemma ServeOwns(n: Network, id: string, to: Identity, outcome: Option<Outcome>)
    requires OwnResponses(n) && id in n.requests && id !in n.served
    ensures OwnResponses(Serve(n, id, to, outcome))
  {
    var n' := Serve(n, id, to, outcome);
    forall i | 0 <= i < |n'.bus.futures| ensures AllOwn(n'.requests, n'.served, n'.bus.futures[i]) {
      OwnMonotone(n, n', n.bus.futures[i]);
    }
    OwnMonotone(n, n', n.replies);
  }

  lemma ServeKeeps(n: Network, id: string, to: Identity, outcome: Option<Outcome>)
    requires OnlyOwnReplies(n) && id in n.requests && id !in n.served && id !in n.inFlight
    requires !n.bus.In(id, Registered)
    ensures OnlyOwnReplies(Serve(n, id, to, outcome))
  {
    hide Consistent, OwnResponses, Response;
    ServeOwns(n, id, to, outcome);
  }

  lemma LandingKeeps(n: Network, id: string)
    requires OnlyOwnReplies(n)
    ensures OnlyOwnReplies(n.(inFlight := n.inFlight - {id}))
  {
    hide Consistent, AllOwn;
  }

  lemma NestingKeeps(n: Network, id: string, k: Nested)
    requires OnlyOwnReplies(n) && id in n.inFlight
    ensures OnlyOwnReplies(n.(inFlight := n.inFlight - {id}, nested := n.nested[id := k]))
  {
    hide Consistent, AllOwn;
  }

  lemma NetStepKeeps(net: Setup, n: Network, e: NetworkEvent)
    requires OnlyOwnReplies(n)
    ensures OnlyOwnReplies(NetStep(net, n, e))
  {
    hide OnlyOwnReplies, RequestReply.Step, Response, Serve, IssueRequest, Proxy;
    if NetStep(net, n, e) != n {
      match e
      case Send(id, topic, m) => IssueKeeps(n, id, Request(topic, net.Addressed(m, id)));
      case Sent(id, ok, delivered) =>
        BusOnlyKeeps(n, Publish(id, ok), if ok || delivered then n.inFlight + {id} else n.inFlight);
      case Deliver(id, to, outcome) =>
        LandingKeeps(n, id);
        Placed(n);
        ServeKeeps(n.(inFlight := n.inFlight - {id}), id, to, net.Handled(to, n.requests[id].message, outcome));
      case Nest(id, gate, inner) =>
        NestingKeeps(n, id, Nested(gate, inner));
        IssueKeeps(n.(inFlight := n.inFlight - {id}, nested := n.nested[id := Nested(gate, inner)]),
                   inner, net.InnerRequest(gate, n.requests[id].message, inner));
      case Unnest(id) =>
        Placed(n);
        var gate := n.nested[id].gate;
        ServeKeeps(n, id, gate, Some(Proxy(net.gates[gate], n.requests[id].message, InnerResult(n, id))));
      case DeliverReply(k) => BusOnlyKeeps(n, Reply(n.replies[k]), n.inFlight);
      case Local(l) => BusOnlyKeeps(n, l, n.inFlight);
    }
  }

  lemma Placed(n: Network)
    requires OnlyOwnReplies(n)
    ensures InOnePlace(n)
  {
  }

  lemma {:induction false} NetRunKeeps(net: Setup, events: seq<NetworkEvent>)
    ensures OnlyOwnReplies(NetRun(net, events))
  {
    hide NetStep, OnlyOwnReplies;
    if |events| > 0 {
      NetRunKeeps(net, events[..|events| - 1]);
      NetStepKeeps(net, NetRun(net, events[..|events| - 1]), events[|events| - 1]);
    } else {
      NothingSentYet();
    }
  }

  lemma NothingSentYet()
    ensures OnlyOwnReplies(INITIAL_NETWORK)
  {
  }

  /** This is what a request under that id earns: the handler's payload, the error it raised, or that
      no handler knows the action. */
  predicate Earned(r: Message, id: string, action: string, to: Identity, outcome: Option<Outcome>) {
    match outcome
    case None =>
      r == Message("error", "", Some(map["error" := "Unknown action: " + action]), Some(id), None, None, None)
    case Some(Raised(e)) =>
      r == Message("response", to.id, Some(map[]), Some(id), None, Some(false), if e == "" then None else Some(e))
    case Some(Result(payload)) =>
      payload.Some? && r == Message("response", to.id, payload, Some(id), None, Some(true), None)
  }

  lemma ResponseIsEarned(requests: Requests, served: Served, id: string)
    requires id in requests && requests[id].message.correlationId == Some(id)
    requires OwnResponse(requests, served, id).Some?
    ensures id in served
    ensures var r := OwnResponse(requests, served, id).value;
            Earned(r, id, requests[id].message.action, served[id].0, served[id].1)
  {
  }

  lemma CallerGetsOwnResponse(net: Setup, events: seq<NetworkEvent>, id: string)
    requires id in NetRun(net, events).bus.callers && NetRun(net, events).bus.callers[id].phase.Returned?
    ensures var n := NetRun(net, events);
            var r := n.bus.callers[id].phase.result;
            r.Some? ==> id in n.served && id in n.requests && r == OwnResponse(n.requests, n.served, id)
                        && n.requests[id].message.correlationId == Some(id)
  {
    NetRunKeeps(net, events);
    var n := NetRun(net, events);
    var c := n.bus.callers[id];
    assert CallConsistent(n.bus, id, c);
    if c.phase.result.Some? {
      assert n.bus.futures[c.future] == [c.phase.result.value];
      assert AllOwn(n.requests, n.served, n.bus.futures[c.future]);
      assert c.phase.result.value in n.bus.futures[c.future];
    }
  }

  /** End to end, with every request delivered at most once but replies repeated or late at will,
      a caller receives nothing or exactly the response its own request earned. */
  lemma CallerGetsOwnResult(net: Setup, events: seq<NetworkEvent>, id: string)
    requires id in NetRun(net, events).bus.callers && NetRun(net, events).bus.callers[id].phase.Returned?
    ensures var n := NetRun(net, events);
            var r := n.bus.callers[id].phase.result;
            r.Some? ==> id in n.served && id in n.requests && r == OwnResponse(n.requests, n.served, id)
                        && Earned(r.value, id, n.requests[id].message.action, n.served[id].0, n.served[id].1)
  {
    hide NetStep, OwnResponse, Earned;
    CallerGetsOwnResponse(net, events, id);
    var n := NetRun(net, events);
    if n.bus.callers[id].phase.result.Some? {
      ResponseIsEarned(n.requests, n.served, id);
    }
  }

  // ----- through a gateway

  /** Whatever is nested is a routed request, and its inner request is the one the gateway makes. */
  ghost predicate NestedRequest(net: Setup, n: Network, id: string)
    requires id in n.nested
  {
    var k := n.nested[id];
    && id in n.requests && k.inner in n.requests
    && net.Routes(k.gate, n.requests[id].message.action)
    && n.requests[k.inner] == net.InnerRequest(k.gate, n.requests[id].message, k.inner)
  }

  /** The gateway names the action, but no topic for it. */
  predicate Unrouted(net: Setup, gate: Identity, action: string) {
    gate in net.gates && action in net.gates[gate] && net.gates[gate][action] == ""
  }

  /** A dispatcher listening on the request's topic served it; a gateway that names the action without
      a topic refused it; a gateway that routes it did so with what its inner call had returned. */
  ghost predicate ServedProperly(net: Setup, n: Network, id: string)
    requires id in n.served
  {
    var (to, outcome) := n.served[id];
    && id in n.requests && n.requests[id].topic == to.topic
    && (net.Routes(to, n.requests[id].message.action) ==> id in n.nested)
    && (Unrouted(net, to, n.requests[id].message.action) ==>
          outcome == Some(Result(Some(map["error" := "no route for action: " + n.requests[id].message.action]))))
    && (id in n.nested ==>
          InnerReturned(n, id) && n.nested[id].gate == to && net.Routes(to, n.requests[id].message.action)
          && outcome == Some(Proxy(net.gates[to], n.requests[id].message, InnerResult(n, id))))
  }

  ghost predicate Gated(net: Setup, n: Network) {
    && (forall id <- n.nested :: NestedRequest(net, n, id) && n.requests[id].topic == n.nested[id].gate.topic)
    && (forall id <- n.served :: ServedProperly(net, n, id))
  }

  /** Requests, nestings and returned calls are never changed again, and what has been answered is
      never nested afterwards. */
  ghost predicate Extends(n: Network, n': Network) {
    && (forall id <- n.requests :: id in n'.requests && n'.requests[id] == n.requests[id])
    && (forall id <- n.nested :: id in n'.nested && n'.nested[id] == n.nested[id])
    && (forall id <- n'.nested :: id in n.nested || id !in n.served)
    && (forall id <- n.bus.callers :: n.bus.callers[id].phase.Returned? ==>
          id in n'.bus.callers && n'.bus.callers[id].phase == n.bus.callers[id].phase)
  }

  lemma BusExtends(n: Network, e: Event, inFlight: set<string>)
    ensures Extends(n, n.(bus := RequestReply.Step(n.bus, e), inFlight := inFlight))
  {
    hide RequestReply.Step;
    ReturnedStays(n.bus, e);
  }

  lemma IssueExtends(n: Network, id: string, request: Request)
    requires InOnePlace(n) && CanIssue(n, id)
    ensures Extends(n, IssueRequest(n, id, request))
  {
    hide RequestReply.Step;
    ReturnedStays(n.bus, Issue(id));
  }

  lemma NestExtends(n: Network, id: string, k: Nested, request: Request)
    requires InOnePlace(n) && CanIssue(n, k.inner) && id in n.inFlight
    ensures Extends(n, IssueRequest(n.(inFlight := n.inFlight - {id}, nested := n.nested[id := k]), k.inner, request))
  {
    hide RequestReply.Step;
    ReturnedStays(n.bus, Issue(k.inner));
  }

  lemma ServeExtends(n: Network, id: string, inFlight: set<string>, to: Identity, outcome: Option<Outcome>)
    requires id in n.requests
    ensures Extends(n, Serve(n.(inFlight := inFlight), id, to, outcome))
  {
    hide Response;
  }

  lemma NetStepExtends(net: Setup, n: Network, e: NetworkEvent)
    requires OnlyOwnReplies(n)
    ensures Extends(n, NetStep(net, n, e))
  {
    hide RequestReply.Step, OnlyOwnReplies, InOnePlace, Proxy, Response, Serve, IssueRequest, Extends;
    Placed(n);
    if NetStep(net, n, e) == n {
      NothingChanges(n);
    } else {
      match e
      case Send(id, topic, m) => IssueExtends(n, id, Request(topic, net.Addressed(m, id)));
      case Sent(id, ok, delivered) =>
        BusExtends(n, Publish(id, ok), if ok || delivered then n.inFlight + {id} else n.inFlight);
      case Deliver(id, to, outcome) =>
        ServeExtends(n, id, n.inFlight - {id}, to, net.Handled(to, n.requests[id].message, outcome));
      case Nest(id, gate, inner) =>
        NestExtends(n, id, Nested(gate, inner), net.InnerRequest(gate, n.requests[id].message, inner));
      case Unnest(id) =>
        var gate := n.nested[id].gate;
        ServeExtends(n, id, n.inFlight, gate, Some(Proxy(net.gates[gate], n.requests[id].message, InnerResult(n, id))));
      case DeliverReply(k) => BusExtends(n, Reply(n.replies[k]), n.inFlight);
      case Local(l) => BusExtends(n, l, n.inFlight);
    }
  }

  lemma NothingChanges(n: Network)
    ensures Extends(n, n)
  {
  }

  lemma OldStaysGated(net: Setup, n: Network, n': Network)
    requires Gated(net, n) && Extends(n, n')
    ensures forall id <- n.nested :: NestedRequest(net, n', id) && n'.requests[id].topic == n'.nested[id].gate.topic
    ensures forall id <- n.served :: id in n'.served && n'.served[id] == n.served[id] ==> ServedProperly(net, n', id)
  {
    hide Proxy;
    forall id | id in n.nested
      ensures NestedRequest(net, n', id) && n'.requests[id].topic == n'.nested[id].gate.topic
    {
      assert NestedRequest(net, n, id);
    }
    forall id | id in n.served && id in n'.served && n'.served[id] == n.served[id] ensures ServedProperly(net, n', id) {
      assert ServedProperly(net, n, id);
    }
  }

  ghost predicate NewlyNested(net: Setup, n: Network, n': Network) {
    forall id <- n'.nested ::
      id in n.nested || (NestedRequest(net, n', id) && n'.requests[id].topic == n'.nested[id].gate.topic)
  }

  ghost predicate NewlyServed(net: Setup, n: Network, n': Network) {
    forall id <- n'.served :: (id in n.served && n'.served[id] == n.served[id]) || ServedProperly(net, n', id)
  }

  lemma NestIsGated(net: Setup, n: Network, id: string, gate: Identity, inner: string)
    requires InOnePlace(n)
    ensures NewlyNested(net, n, NetStep(net, n, Nest(id, gate, inner)))
    ensures NewlyServed(net, n, NetStep(net, n, Nest(id, gate, inner)))
  {
    hide RequestReply.Step, InnerMessage, ServedProperly;
  }

  lemma DeliverIsGated(net: Setup, n: Network, id: string, to: Identity, outcome: Option<Outcome>)
    requires InOnePlace(n)
    ensures NewlyNested(net, n, NetStep(net, n, Deliver(id, to, outcome)))
    ensures NewlyServed(net, n, NetStep(net, n, Deliver(id, to, outcome)))
  {
    hide Response, Proxy, NestedRequest;
    if id in n.requests && Unrouted(net, to, n.requests[id].message.action) {
      UnroutedIsRefused(net.gates[to], n.requests[id].message, None);
    }
  }

  lemma UnnestIsGated(net: Setup, n: Network, id: string)
    requires Gated(net, n)
    ensures NewlyNested(net, n, NetStep(net, n, Unnest(id)))
    ensures NewlyServed(net, n, NetStep(net, n, Unnest(id)))
  {
    hide Response, Proxy;
    if id in n.nested {
      assert NestedRequest(net, n, id);
    }
  }

  lemma OthersAreGated(net: Setup, n: Network, e: NetworkEvent)
    requires e.Send? || e.Sent? || e.DeliverReply? || e.Local?
    ensures NewlyNested(net, n, NetStep(net, n, e)) && NewlyServed(net, n, NetStep(net, n, e))
  {
    hide RequestReply.Step, NestedRequest, ServedProperly;
  }

  /** What one step adds: at most one nesting and at most one answer, each in order. */
  lemma NewIsGated(net: Setup, n: Network, e: NetworkEvent)
    requires OnlyOwnReplies(n) && Gated(net, n)
    ensures NewlyNested(net, n, NetStep(net, n, e)) && NewlyServed(net, n, NetStep(net, n, e))
  {
    hide NetStep, OnlyOwnReplies, InOnePlace, Gated, NewlyNested, NewlyServed;
    Placed(n);
    match e
    case Nest(id, gate, inner) => NestIsGated(net, n, id, gate, inner);
    case Deliver(id, to, outcome) => DeliverIsGated(net, n, id, to, outcome);
    case Unnest(id) => UnnestIsGated(net, n, id);
    case _ => OthersAreGated(net, n, e);
  }

  lemma GatedStep(net: Setup, n: Network, e: NetworkEvent)
    requires OnlyOwnReplies(n) && Gated(net, n)
    ensures Gated(net, NetStep(net, n, e))
  {
    hide NetStep, OnlyOwnReplies, NestedRequest, ServedProperly, Extends;
    NetStepExtends(net, n, e);
    OldStaysGated(net, n, NetStep(net, n, e));
    NewIsGated(net, n, e);
  }

  lemma {:induction false} EveryRunIsGated(net: Setup, events: seq<NetworkEvent>)
    ensures Gated(net, NetRun(net, events))
  {
    hide NetStep, OnlyOwnReplies;
    if |events| > 0 {
      var before := events[..|events| - 1];
      EveryRunIsGated(net, before);
      NetRunKeeps(net, before);
      GatedStep(net, NetRun(net, before), events[|events| - 1]);
    }
  }

  /** A call answered by a gateway that routes its action. Whatever else happens on the bus, the
      gateway made one inner request in its own name, with the outer action and payload, on the
      routed topic, that inner call has returned, and the outer caller has, under its own correlation
      id, the payload of the handler on that topic which served it, the error entry naming its
      failure, or the time-out entry when the inner call came back empty. */
  lemma GatewayForwards(net: Setup, events: seq<NetworkEvent>, outer: string)
    requires var n := NetRun(net, events);
             outer in n.bus.callers && n.bus.callers[outer].phase.Returned? && n.bus.callers[outer].phase.result.Some?
    requires var n := NetRun(net, events);
             outer in n.served && outer in n.requests
             && net.Routes(n.served[outer].0, n.requests[outer].message.action)
    ensures var n := NetRun(net, events);
            var r, m, gate := n.bus.callers[outer].phase.result.value, n.requests[outer].message, n.served[outer].0;
            && InnerReturned(n, outer)
            && var inner := n.nested[outer].inner;
            && inner in n.requests
            && n.requests[inner].topic == net.gates[gate][m.action]
            && n.requests[inner].message == Message(
                 m.action, gate.id, if m.payload.Some? then m.payload else Some(map[]), Some(inner), Some(net.reply),
                 None, None)
            && (r.action, r.sender, r.correlationId, r.success) == ("response", gate.id, Some(outer), Some(true))
            && (InnerResult(n, outer).None? ==> r.payload == Some(map["error" := "timeout waiting for " + m.action]))
            && (InnerResult(n, outer).Some? ==>
                  && inner in n.served && n.served[inner].0.topic == net.gates[gate][m.action]
                  && match n.served[inner].1
                     case Some(Result(payload)) => payload.Some? && r.payload == payload
                     case Some(Raised(e)) =>
                       r.payload == Some(map["error" := if e == "" then "failed: " + m.action else e])
                     case None => r.payload == Some(map["error" := "failed: " + m.action]))
  {
    hide NetStep, OnlyOwnReplies;
    EveryRunIsGated(net, events);
    NetRunKeeps(net, events);
    CorrelatesWithItself(NetRun(net, events), outer);
    var n := NetRun(net, events);
    assert ServedProperly(net, n, outer) && NestedRequest(net, n, outer);
    var inner := n.nested[outer].inner;
    CallerGetsOwnResult(net, events, outer);
    CallerGetsOwnResult(net, events, inner);
    if InnerResult(n, outer).Some? {
      assert ServedProperly(net, n, inner);
    }
  }

  lemma CorrelatesWithItself(n: Network, id: string)
    requires OnlyOwnReplies(n) && id in n.requests
    ensures n.requests[id].message.correlationId == Some(id)
  {
  }

  /** A call that a gateway is still working on has not been answered: its caller can only time out. */
  lemma WaitsForTheInnerCall(net: Setup, events: seq<NetworkEvent>, outer: string)
    requires var n := NetRun(net, events);
             outer in n.nested && !InnerReturned(n, outer)
             && outer in n.bus.callers && n.bus.callers[outer].phase.Returned?
    ensures NetRun(net, events).bus.callers[outer].phase.result == None
  {
    hide NetStep;
    CallerGetsOwnResult(net, events, outer);
    EveryRunIsGated(net, events);
    var n := NetRun(net, events);
    assert outer in n.served ==> ServedProperly(net, n, outer);
  }

  // ----- where requests come from

  /** Event k was a caller's sending of this request: only the return address was added to it. */
  predicate SentAt(net: Setup, events: seq<NetworkEvent>, k: nat, id: string, request: Request) {
    && k < |events| && events[k].Send? && events[k].id == id && request.topic == events[k].topic
    && var m := events[k].message;
       request.message == Message(m.action, m.sender, m.payload, Some(id), Some(net.reply), m.success, m.error)
  }

  ghost predicate HasOrigin(net: Setup, events: seq<NetworkEvent>, nested: map<string, Nested>, id: string,
                            request: Request) {
    (exists k: nat :: SentAt(net, events, k, id, request)) || (exists outer <- nested :: nested[outer].inner == id)
  }

  lemma OriginIsRemembered(net: Setup, before: seq<NetworkEvent>, e: NetworkEvent, nested: map<string, Nested>,
                           nested': map<string, Nested>, id: string, request: Request)
    requires HasOrigin(net, before, nested, id, request)
    requires forall outer <- nested :: outer in nested' && nested'[outer] == nested[outer]
    ensures HasOrigin(net, before + [e], nested', id, request)
  {
    if k: nat :| SentAt(net, before, k, id, request) {
      assert SentAt(net, before + [e], k, id, request);
    }
  }

  lemma NewRequestHasOrigin(net: Setup, n: Network, before: seq<NetworkEvent>, e: NetworkEvent, id: string)
    requires id in NetStep(net, n, e).requests
    requires id in n.requests ==> NetStep(net, n, e).requests[id] != n.requests[id]
    ensures HasOrigin(net, before + [e], NetStep(net, n, e).nested, id, NetStep(net, n, e).requests[id])
  {
    hide RequestReply.Step, Response, Proxy, InnerMessage;
    var n' := NetStep(net, n, e);
    if e.Send? {
      assert SentAt(net, before + [e], |before|, id, n'.requests[id]);
    } else {
      assert e.Nest?;
      assert n'.nested[e.id].inner == id;
    }
  }

  /** Every request of every run is one that a caller sent, as it was sent, or the inner request of a
      gateway. */
  lemma {:induction false} RequestsHaveOrigins(net: Setup, events: seq<NetworkEvent>)
    ensures var n := NetRun(net, events);
            forall id <- n.requests :: HasOrigin(net, events, n.nested, id, n.requests[id])
  {
    hide NetStep, OnlyOwnReplies;
    if |events| > 0 {
      var before, e := events[..|events| - 1], events[|events| - 1];
      var n, n' := NetRun(net, before), NetRun(net, events);
      assert events == before + [e];
      RequestsHaveOrigins(net, before);
      NetRunKeeps(net, before);
      NetStepExtends(net, n, e);
      forall id | id in n'.requests ensures HasOrigin(net, events, n'.nested, id, n'.requests[id]) {
        if id in n.requests && n'.requests[id] == n.requests[id] {
          OriginIsRemembered(net, before, e, n.nested, n'.nested, id, n.requests[id]);
        } else {
          NewRequestHasOrigin(net, n, before, e, id);
        }
      }
    }
  }

  // ----- a run through a gateway

  /** A gateway, the component behind it, the payload it is asked with and the one it answers with. */
  datatype Scene = Scene(gate: Identity, part: Identity, asked: Payload, payload: Payload)
  {
    function Net(): Setup {
      Setup("reply", map[gate := map["ask" := part.topic]])
    }

    function Question(): Message {
      Message("ask", "caller", Some(asked), None, None, None, None)
    }

    /** The outer request "o" and, once it is made, the inner request "i". */
    function Made(both: bool): Requests {
      var outer := Net().Addressed(Question(), "o");
      if both then map["o" := Request(gate.topic, outer),
                       "i" := Request(part.topic, Net().Addressed(InnerMessage(gate, outer), "i"))]
      else map["o" := Request(gate.topic, outer)]
    }

    function Reply(id: string, from: Identity): Message {
      CreateResponse(Some(id), payload, from.id, true, "")
    }

    function Did(): Option<Outcome> {
      Some(Result(Some(payload)))
    }

    /** The network after the gateway has issued its inner request, which is now in this phase. */
    function Asking(inner: Phase): Network {
      Network(BusState(map["o" := 0, "i" := 1], [[], []], map["o" := Caller(0, Waiting), "i" := Caller(1, inner)]),
              Made(true), if inner == Waiting then {"i"} else {}, map["o" := Nested(gate, "i")], map[], [])
    }

    /** The network once the component has answered. */
    function Answered(): Network {
      Asking(Waiting).(inFlight := {}, served := map["i" := (part, Did())], replies := [Reply("i", part)])
    }

    /** The network once that answer is in the gateway's future. */
    function Delivered(): Network {
      Answered().(bus := BusState(map["o" := 0], [[], [Reply("i", part)]],
                                  map["o" := Caller(0, Waiting), "i" := Caller(1, Waiting)]))
    }

    function Callers(outer: Phase): map<string, Caller> {
      map["o" := Caller(0, outer), "i" := Caller(1, Returned(Some(Reply("i", part))))]
    }

    /** The network once the gateway has its answer. */
    function Told(): Network {
      Answered().(bus := BusState(map["o" := 0], [[], [Reply("i", part)]], Callers(Waiting)))
    }

    /** The network once the gateway has answered in turn. */
    function Replied(): Network {
      Told().(served := map["i" := (part, Did()), "o" := (gate, Did())],
              replies := [Reply("i", part), Reply("o", gate)])
    }

    /** The network once that answer is in the caller's future, and once the caller is in this phase. */
    function Reached(outer: Phase): Network {
      Replied().(bus := BusState(map[], [[Reply("o", gate)], [Reply("i", part)]], Callers(outer)))
    }

    function Done(): Network {
      Reached(Returned(Some(Reply("o", gate))))
    }
  }

  function Steps(net: Setup, n: Network, events: seq<NetworkEvent>): Network {
    if events == [] then n else NetStep(net, Steps(net, n, events[..|events| - 1]), events[|events| - 1])
  }

  lemma {:induction false} StepsJoin(net: Setup, n: Network, a: seq<NetworkEvent>, b: seq<NetworkEvent>)
    ensures Steps(net, n, a + b) == Steps(net, Steps(net, n, a), b)
  {
    hide NetStep;
    if b == [] {
      assert a + b == a;
    } else {
      StepsJoin(net, n, a, b[..|b| - 1]);
      assert (a + b)[..|a + b| - 1] == a + b[..|b| - 1];
    }
  }

  lemma {:induction false} RunIsSteps(net: Setup, events: seq<NetworkEvent>)
    ensures NetRun(net, events) == Steps(net, INITIAL_NETWORK, events)
  {
    hide NetStep;
    if |events| > 0 {
      RunIsSteps(net, events[..|events| - 1]);
    }
  }

  lemma OneStep(net: Setup, n: Network, e: NetworkEvent)
    ensures Steps(net, n, [e]) == NetStep(net, n, e)
  {
    assert [e][..0] == [];
  }

  lemma CallerAsks(s: Scene)
    ensures var n := Steps(s.Net(), INITIAL_NETWORK, [Send("o", s.gate.topic, s.Question())] + [Sent("o", true, true)]);
            n == Network(BusState(map["o" := 0], [[]], map["o" := Caller(0, Waiting)]), s.Made(false), {"o"},
                         map[], map[], [])
  {
    var e, f := Send("o", s.gate.topic, s.Question()), Sent("o", true, true);
    StepsJoin(s.Net(), INITIAL_NETWORK, [e], [f]);
    OneStep(s.Net(), INITIAL_NETWORK, e);
    var n := NetStep(s.Net(), INITIAL_NETWORK, e);
    assert n == Network(BusState(map["o" := 0], [[]], map["o" := Caller(0, Registered)]), s.Made(false), {},
                        map[], map[], []);
    OneStep(s.Net(), n, f);
  }

  lemma GatewayNests(s: Scene, n: Network)
    requires s.part.topic != ""
    requires n == Network(BusState(map["o" := 0], [[]], map["o" := Caller(0, Waiting)]), s.Made(false), {"o"},
                          map[], map[], [])
    ensures NetStep(s.Net(), n, Nest("o", s.gate, "i")) == s.Asking(Registered)
  {
  }

  lemma GatewayAsks(s: Scene, n: Network)
    requires s.part.topic != ""
    requires n == Network(BusState(map["o" := 0], [[]], map["o" := Caller(0, Waiting)]), s.Made(false), {"o"},
                          map[], map[], [])
    ensures Steps(s.Net(), n, [Nest("o", s.gate, "i")] + [Sent("i", true, true)]) == s.Asking(Waiting)
  {
    hide Steps;
    StepsJoin(s.Net(), n, [Nest("o", s.gate, "i")], [Sent("i", true, true)]);
    OneStep(s.Net(), n, Nest("o", s.gate, "i"));
    GatewayNests(s, n);
    OneStep(s.Net(), s.Asking(Registered), Sent("i", true, true));
  }

  lemma ComponentAnswers(s: Scene)
    requires s.gate != s.part
    ensures Steps(s.Net(), s.Asking(Waiting), [Deliver("i", s.part, s.Did())]) == s.Answered()
  {
    OneStep(s.Net(), s.Asking(Waiting), Deliver("i", s.part, s.Did()));
  }

  lemma ReplyReachesGateway(s: Scene)
    ensures NetStep(s.Net(), s.Answered(), DeliverReply(0)) == s.Delivered()
  {
    var none: seq<Message> := [];
    assert none + [s.Reply("i", s.part)] == [s.Reply("i", s.part)];
    assert RequestReply.Step(s.Answered().bus, RequestReply.Reply(s.Reply("i", s.part))) == s.Delivered().bus;
  }

  lemma GatewayCollects(s: Scene)
    ensures NetStep(s.Net(), s.Delivered(), Local(Collect("i"))) == s.Told()
  {
    hide CreateResponse;
  }

  lemma GatewayIsTold(s: Scene)
    ensures Steps(s.Net(), s.Answered(), [DeliverReply(0)] + [Local(Collect("i"))]) == s.Told()
  {
    hide Steps, NetStep;
    StepsJoin(s.Net(), s.Answered(), [DeliverReply(0)], [Local(Collect("i"))]);
    OneStep(s.Net(), s.Answered(), DeliverReply(0));
    ReplyReachesGateway(s);
    OneStep(s.Net(), s.Delivered(), Local(Collect("i")));
    GatewayCollects(s);
  }

  lemma GatewayServes(s: Scene)
    requires s.part.topic != ""
    ensures NetStep(s.Net(), s.Told(), Unnest("o")) == s.Replied()
  {
    hide RequestReply.Step;
  }

  lemma ReplyReachesCaller(s: Scene)
    ensures NetStep(s.Net(), s.Replied(), DeliverReply(1)) == s.Reached(Waiting)
  {
    var none: seq<Message> := [];
    assert none + [s.Reply("o", s.gate)] == [s.Reply("o", s.gate)];
    assert RequestReply.Step(s.Replied().bus, RequestReply.Reply(s.Reply("o", s.gate))) == s.Reached(Waiting).bus;
  }

  lemma CallerCollects(s: Scene)
    ensures NetStep(s.Net(), s.Reached(Waiting), Local(Collect("o"))) == s.Done()
  {
    hide CreateResponse;
  }

  lemma GatewayReplies(s: Scene)
    requires s.part.topic != ""
    ensures Steps(s.Net(), s.Told(), [Unnest("o")] + [DeliverReply(1)] + [Local(Collect("o"))]) == s.Done()
  {
    hide Steps, NetStep;
    var net := s.Net();
    StepsJoin(net, s.Told(), [Unnest("o")] + [DeliverReply(1)], [Local(Collect("o"))]);
    StepsJoin(net, s.Told(), [Unnest("o")], [DeliverReply(1)]);
    OneStep(net, s.Told(), Unnest("o"));
    GatewayServes(s);
    OneStep(net, s.Replied(), DeliverReply(1));
    ReplyReachesCaller(s);
    OneStep(net, s.Reached(Waiting), Local(Collect("o")));
    CallerCollects(s);
  }

  /** Some run answers an outer call through the gateway, with the component's payload: what
      GatewayForwards is about does happen. */
  lemma GatewayAnswers(s: Scene)
    requires s.part.topic != "" && s.gate != s.part
    ensures exists events :: NetRun(s.Net(), events) == s.Done()
    ensures s.Net().Routes(s.Done().served["o"].0, s.Done().requests["o"].message.action)
    ensures s.Done().bus.callers["o"].phase.Returned?
            && s.Done().bus.callers["o"].phase.result == Some(s.Reply("o", s.gate))
            && s.Reply("o", s.gate).payload == Some(s.payload)
    ensures s.Done().requests["i"].topic == s.part.topic && s.Done().requests["i"].message.payload == Some(s.asked)
  {
    hide NetStep, Steps;
    var net := s.Net();
    var a := [Send("o", s.gate.topic, s.Question())] + [Sent("o", true, true)];
    var b := [Nest("o", s.gate, "i")] + [Sent("i", true, true)];
    var c := [Deliver("i", s.part, s.Did())];
    var d := [DeliverReply(0)] + [Local(Collect("i"))];
    var e := [Unnest("o")] + [DeliverReply(1)] + [Local(Collect("o"))];
    CallerAsks(s);
    GatewayAsks(s, Steps(net, INITIAL_NETWORK, a));
    ComponentAnswers(s);
    GatewayIsTold(s);
    GatewayReplies(s);
    StepsJoin(net, INITIAL_NETWORK, a, b);
    StepsJoin(net, INITIAL_NETWORK, a + b, c);
    StepsJoin(net, INITIAL_NETWORK, a + b + c, d);
    StepsJoin(net, INITIAL_NETWORK, a + b + c + d, e);
    RunIsSteps(net, a + b + c + d + e);
  }
}
