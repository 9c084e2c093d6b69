/** The deny-by-default monitor through which all calls between domains pass, the workers that
    accept calls from it alone, and runs of the two over a bus that may lose, delay, reorder and
    repeat messages. */
module SecurityMonitor {
  import opened Wrappers

  datatype Rule = Rule(sender: string, topic: string, action: string)

  datatype Envelope = Envelope(topic: string, action: string, sender: string, data: string)

  /** The target named in a proxy payload; a missing part is the empty string. */
  datatype Target = Target(topic: string, action: string, data: string)

  /** A message the monitor understands. `answer` is what the bus brings back for a forwarded
      request (nothing on timeout), `delivered` whether the bus took a forwarded publication. */
  datatype MonitorCall =
    | ProxyRequest(target: Target, answer: Option<string>)
    | ProxyPublish(target: Target, delivered: bool)
    | SetPolicy(rule: Rule)
    | RemovePolicy(rule: Rule)
    | ClearPolicies

  datatype Reply =
    | NoTargetInPayload | PolicyDenied(Rule) | MonitorInboundDenied(topic: string, action: string)
    | TargetTimeout(topic: string) | TargetResponse(topic: string, action: string, response: string)
    | NoReply | Published(bool)
    | Forbidden | InvalidPolicy | Updated(Rule) | Removed(existed: bool, Rule) | Cleared(count: nat)

  const ANY := "*"
  const IPC_INBOUND_REQUEST := "ipc_inbound_request"

  // ----- what the policies mean

  predicate Matches(rule: Rule, sender: string, topic: string, action: string) {
    && rule.sender == sender
    && (rule.topic == ANY || rule.topic == topic)
    && (rule.action == ANY || rule.action == action)
  }

  predicate Allowed(policies: set<Rule>, sender: string, topic: string, action: string) {
    exists rule <- policies :: Matches(rule, sender, topic, action)
  }

  predicate Complete(rule: Rule) {
    rule.sender != "" && rule.topic != "" && rule.action != ""
  }

  datatype Config = Config(monitorTopic: string, adminSender: string, workers: map<string, Worker>)

  /** A worker's own actions and the senders it trusts. */
  datatype Worker = Worker(actions: set<string>, trusted: set<string>)

  predicate MayManage(cfg: Config, sender: string) {
    cfg.adminSender != "" && sender == cfg.adminSender
  }

  predicate HasTarget(target: Target) {
    target.topic != "" && target.action != ""
  }

  /** Whether the monitor forwards this call, and if so as which message. */
  function Forwarded(cfg: Config, policies: set<Rule>, sender: string, call: MonitorCall): Option<Envelope> {
    if (call.ProxyRequest? || call.ProxyPublish?)
       && HasTarget(call.target)
       && Allowed(policies, sender, call.target.topic, call.target.action)
       && (call.ProxyRequest? ==> Allowed(policies, cfg.monitorTopic, call.target.topic, IPC_INBOUND_REQUEST))
    then Some(Envelope(call.target.topic, call.target.action, cfg.monitorTopic, call.target.data))
    else None
  }

  function NewPolicies(cfg: Config, policies: set<Rule>, sender: string, call: MonitorCall): set<Rule> {
    if !MayManage(cfg, sender) then policies
    else match call
      case SetPolicy(rule) => if Complete(rule) then policies + {rule} else policies
      case RemovePolicy(rule) => if Complete(rule) then policies - {rule} else policies
      case ClearPolicies => {}
      case _ => policies
  }

  function Posted(e: Option<Envelope>): seq<Envelope> {
    if e.Some? then [e.value] else []
  }

  // ----- the monitor

  class SecurityMonitorComponent {
    const cfg: Config
    var policies: set<Rule>
    /** Everything the monitor has put on the bus. */
    var sent: seq<Envelope>

    constructor (cfg: Config, policies: set<Rule>)
      ensures this.cfg == cfg && this.policies == policies && sent == []
    {
      this.cfg, this.policies, sent := cfg, policies, [];
    }

    /** The membership test and the scan together decide exactly "some rule matches". */
    method IsAllowed(sender: string, topic: string, action: string) returns (allowed: bool)
      ensures allowed <==> Allowed(policies, sender, topic, action)
      ensures allowed <==> exists rule <- policies ::
                rule.sender == sender && rule.topic in {"*", topic} && rule.action in {"*", action}
    {
      if Rule(sender, topic, action) in policies {
        assert Matches(Rule(sender, topic, action), sender, topic, action);
        return true;
      }
      var todo := policies;
      while todo != {}
        invariant todo <= policies
        invariant forall rule <- policies - todo :: !Matches(rule, sender, topic, action)
      {
        var rule :| rule in todo;
        todo := todo - {rule};
        if rule.sender == sender {
          var topicMatches := rule.topic == ANY || rule.topic == topic;
          var actionMatches := rule.action == ANY || rule.action == action;
          if topicMatches && actionMatches {
            assert Matches(rule, sender, topic, action);
            return true;
          }
        }
      }
      return false;
    }

    method HandleProxyRequest(sender: string, target: Target, answer: Option<string>) returns (reply: Reply)
      modifies this`sent
      ensures var forwarded := Forwarded(cfg, policies, sender, ProxyRequest(target, answer));
              && sent == old(sent) + Posted(forwarded)
              && (forwarded.Some? <==> reply.TargetTimeout? || reply.TargetResponse?)
              && (forwarded.Some? ==> reply == if answer.None? then TargetTimeout(target.topic)
                                               else TargetResponse(target.topic, target.action, answer.value))
      ensures var named := target.topic != "" && target.action != "";
              var allowed := Allowed(policies, sender, target.topic, target.action);
              var inbound := Allowed(policies, cfg.monitorTopic, target.topic, "ipc_inbound_request");
              && (reply.NoTargetInPayload? <==> !named)
              && (reply == PolicyDenied(Rule(sender, target.topic, target.action)) <==> named && !allowed)
              && (reply == MonitorInboundDenied(target.topic, target.action) <==> named && allowed && !inbound)
              && sent == old(sent) + if named && allowed && inbound
                                     then [Envelope(target.topic, target.action, cfg.monitorTopic, target.data)] else []
    {
      if !HasTarget(target) {
        return NoTargetInPayload;
      }
      var senderAllowed := IsAllowed(sender, target.topic, target.action);
      if !senderAllowed {
        return PolicyDenied(Rule(sender, target.topic, target.action));
      }
      var inboundAllowed := IsAllowed(cfg.monitorTopic, target.topic, IPC_INBOUND_REQUEST);
      if !inboundAllowed {
        return MonitorInboundDenied(target.topic, target.action);
      }
      sent := sent + [Envelope(target.topic, target.action, cfg.monitorTopic, target.data)];
      if answer.None? {
        return TargetTimeout(target.topic);
      }
      return TargetResponse(target.topic, target.action, answer.value);
    }

    method HandleProxyPublish(sender: string, target: Target, delivered: bool) returns (reply: Reply)
      modifies this`sent
      ensures var forwarded := Forwarded(cfg, policies, sender, ProxyPublish(target, delivered));
              && sent == old(sent) + Posted(forwarded)
              && reply == if forwarded.Some? then Published(delivered) else NoReply
      ensures var passes := target.topic != "" && target.action != ""
                            && Allowed(policies, sender, target.topic, target.action);
              && reply == (if passes then Published(delivered) else NoReply)
              && sent == old(sent) + if passes
                                     then [Envelope(target.topic, target.action, cfg.monitorTopic, target.data)] else []
    {
      if !HasTarget(target) {
        return NoReply;
      }
      var allowed := IsAllowed(sender, target.topic, target.action);
      if !allowed {
        return NoReply;
      }
      sent := sent + [Envelope(target.topic, target.action, cfg.monitorTopic, target.data)];
      return Published(delivered);
    }

    method HandleSetPolicy(sender: string, rule: Rule) returns (reply: Reply)
      modifies this`policies
      ensures policies == NewPolicies(cfg, old(policies), sender, SetPolicy(rule))
      ensures var admin := cfg.adminSender != "" && sender == cfg.adminSender;
              var complete := "" !in {rule.sender, rule.topic, rule.action};
              && reply == (if !admin then Forbidden else if !complete then InvalidPolicy else Updated(rule))
              && policies == old(policies) + if admin && complete then {rule} else {}
    {
      if !MayManage(cfg, sender) {
        return Forbidden;
      }
      if !Complete(rule) {
        return InvalidPolicy;
      }
      policies := policies + {rule};
      return Updated(rule);
    }

    method HandleRemovePolicy(sender: string, rule: Rule) returns (reply: Reply)
      modifies this`policies
      ensures policies == NewPolicies(cfg, old(policies), sender, RemovePolicy(rule))
      ensures var admin := cfg.adminSender != "" && sender == cfg.adminSender;
              var complete := "" !in {rule.sender, rule.topic, rule.action};
              && reply == (if !admin then Forbidden else if !complete then InvalidPolicy
                           else Removed(rule in old(policies), rule))
              && policies == old(policies) - if admin && complete then {rule} else {}
    {
      if !MayManage(cfg, sender) {
        return Forbidden;
      }
      if !Complete(rule) {
        return InvalidPolicy;
      }
      var existed := rule in policies;
      policies := policies - {rule};
      return Removed(existed, rule);
    }

    method HandleClearPolicies(sender: string) returns (reply: Reply)
      modifies this`policies
      ensures policies == NewPolicies(cfg, old(policies), sender, ClearPolicies)
      ensures var admin := cfg.adminSender != "" && sender == cfg.adminSender;
              && reply == (if admin then Cleared(|old(policies)|) else Forbidden)
              && policies == if admin then {} else old(policies)
    {
      if !MayManage(cfg, sender) {
        return Forbidden;
      }
      var removed := |policies|;
      policies := {};
      return Cleared(removed);
    }
  }

  // ----- the workers

  datatype WorkerReply = DirectCallForbidden | Done(string)

  type Handler = string -> string

  /** The guarded form of a handler: it sees only messages from trusted senders. */
  function Guard(trusted: set<string>, handler: Handler): Envelope -> WorkerReply {
    (m: Envelope) => if m.sender !in trusted then DirectCallForbidden else Done(handler(m.data))
  }

  class ServiceComponent {
    const serviceHandlers: map<string, Handler>
    const trusted: set<string>
    var handlers: map<string, Envelope -> WorkerReply>

    constructor (serviceHandlers: map<string, Handler>, trusted: set<string>)
      ensures this.serviceHandlers == serviceHandlers && this.trusted == trusted && handlers == map[]
    {
      this.serviceHandlers, this.trusted, handlers := serviceHandlers, trusted, map[];
    }

    /** After registration no service action is reachable except through its guard. */
    method RegisterHandlers()
      modifies this
      ensures handlers.Keys == old(handlers).Keys + serviceHandlers.Keys
      ensures forall a <- serviceHandlers :: handlers[a] == Guard(trusted, serviceHandlers[a])
      ensures forall a <- serviceHandlers, m: Envelope :: handlers[a](m) ==
                if m.sender in trusted then Done(serviceHandlers[a](m.data)) else DirectCallForbidden
      ensures forall a <- old(handlers).Keys - serviceHandlers.Keys :: handlers[a] == old(handlers)[a]
    {
      ghost var before := handlers;
      var todo := serviceHandlers.Keys;
      while todo != {}
        invariant todo <= serviceHandlers.Keys
        invariant handlers.Keys == before.Keys + (serviceHandlers.Keys - todo)
        invariant forall a <- serviceHandlers.Keys - todo :: handlers[a] == Guard(trusted, serviceHandlers[a])
        invariant forall a <- before.Keys - serviceHandlers.Keys :: handlers[a] == before[a]
      {
        var a :| a in todo;
        handlers := handlers[a := Guard(trusted, serviceHandlers[a])];
        todo := todo - {a};
      }
    }
  }

  // ----- runs

  /** What the bus may still deliver, the rules in force, and the handler calls executed so far. */
  datatype System = System(policies: set<Rule>, onBus: seq<Envelope>, executed: seq<Envelope>)

  datatype Event =
    | ToMonitor(sender: string, call: MonitorCall)
    | Direct(envelope: Envelope)
    | Deliver(index: nat)

  predicate Executes(cfg: Config, e: Envelope) {
    && e.topic in cfg.workers
    && e.action in cfg.workers[e.topic].actions
    && e.sender in cfg.workers[e.topic].trusted
  }

  /** Delivery leaves the message on the bus: it may be delivered again, later, or never. */
  function Step(cfg: Config, s: System, e: Event): System {
    match e
    case ToMonitor(sender, call) =>
      s.(policies := NewPolicies(cfg, s.policies, sender, call),
         onBus := s.onBus + Posted(Forwarded(cfg, s.policies, sender, call)))
    case Direct(envelope) => s.(onBus := s.onBus + [envelope])
    case Deliver(i) =>
      if i < |s.onBus| && Executes(cfg, s.onBus[i]) then s.(executed := s.executed + [s.onBus[i]]) else s
  }

  function Run(cfg: Config, initial: set<Rule>, events: seq<Event>): System {
    if events == [] then System(initial, [], [])
    else Step(cfg, Run(cfg, initial, events[..|events| - 1]), events[|events| - 1])
  }

  /** No one but the monitor signs with the monitor's name, and workers trust that name alone. */
  predicate OnlyMonitorIsTrusted(cfg: Config, events: seq<Event>) {
    && (forall t <- cfg.workers :: cfg.workers[t].trusted == {cfg.monitorTopic})
    && (forall e <- events :: e.Direct? ==> e.envelope.sender != cfg.monitorTopic)
  }

  /** Event k asked the monitor to forward exactly this message, and a rule in force at that moment
      matched the asking sender, the topic and the action. */
  predicate ForwardedAt(cfg: Config, initial: set<Rule>, events: seq<Event>, k: nat, e: Envelope)
    requires k < |events|
  {
    var policies := Run(cfg, initial, events[..k]).policies;
    && events[k].ToMonitor?
    && (events[k].call.ProxyRequest? || events[k].call.ProxyPublish?)
    && events[k].call.target == Target(e.topic, e.action, e.data)
    && Allowed(policies, events[k].sender, e.topic, e.action)
    && (events[k].call.ProxyRequest? ==> Allowed(policies, cfg.monitorTopic, e.topic, IPC_INBOUND_REQUEST))
  }

  ghost predicate WasForwarded(cfg: Config, initial: set<Rule>, events: seq<Event>, e: Envelope) {
    exists k: nat :: k < |events| && ForwardedAt(cfg, initial, events, k, e)
  }

  lemma ForwardingIsRemembered(cfg: Config, initial: set<Rule>, events: seq<Event>, e: Envelope)
    requires events != [] && WasForwarded(cfg, initial, events[..|events| - 1], e)
    ensures WasForwarded(cfg, initial, events, e)
  {
    var before := events[..|events| - 1];
    var k: nat :| k < |before| && ForwardedAt(cfg, initial, before, k, e);
    assert before[..k] == events[..k];
    assert ForwardedAt(cfg, initial, events, k, e);
  }

  ghost predicate BusIsAccountedFor(cfg: Config, initial: set<Rule>, events: seq<Event>) {
    var s := Run(cfg, initial, events);
    && (forall i ::
        0 <= i < |s.onBus| && s.onBus[i].sender == cfg.monitorTopic ==> WasForwarded(cfg, initial, events, s.onBus[i]))
    && (forall i :: 0 <= i < |s.executed| ==>
          s.executed[i].sender == cfg.monitorTopic && WasForwarded(cfg, initial, events, s.executed[i]))
  }

  lemma {:induction false} EveryRunIsAccountedFor(cfg: Config, initial: set<Rule>, events: seq<Event>)
    requires OnlyMonitorIsTrusted(cfg, events)
    ensures BusIsAccountedFor(cfg, initial, events)
  {
    if events != [] {
      var n := |events| - 1;
      var before, e := events[..n], events[n];
      EveryRunIsAccountedFor(cfg, initial, before);
      var s, s' := Run(cfg, initial, before), Run(cfg, initial, events);
      forall x | WasForwarded(cfg, initial, before, x) ensures WasForwarded(cfg, initial, events, x) {
        ForwardingIsRemembered(cfg, initial, events, x);
      }
      if e.ToMonitor? {
        var posted := Forwarded(cfg, s.policies, e.sender, e.call);
        if posted.Some? {
          assert ForwardedAt(cfg, initial, events, n, posted.value);
        }
        forall i | 0 <= i < |s'.onBus| && s'.onBus[i].sender == cfg.monitorTopic
          ensures WasForwarded(cfg, initial, events, s'.onBus[i])
        {
          assert i < |s.onBus| ==> s'.onBus[i] == s.onBus[i];
        }
      } else if e.Direct? {
        assert e in events;
        forall i | 0 <= i < |s'.onBus| && s'.onBus[i].sender == cfg.monitorTopic
          ensures WasForwarded(cfg, initial, events, s'.onBus[i])
        {
          assert i < |s.onBus| && s'.onBus[i] == s.onBus[i];
        }
      }
    }
  }

  /** However rules are set, removed and cleared, and however the bus behaves: a worker executes a
      handler only for a call that the monitor forwarded at a moment when some rule allowed it. */
  lemma ExecutedCallsWereAllowed(cfg: Config, initial: set<Rule>, events: seq<Event>, e: Envelope)
    requires OnlyMonitorIsTrusted(cfg, events)
    requires e in Run(cfg, initial, events).executed
    ensures WasForwarded(cfg, initial, events, e)
  {
    EveryRunIsAccountedFor(cfg, initial, events);
  }

  /** A request handed to the monitor and delivered is executed exactly when it is named, allowed both
      ways, and meant for an action of a worker that trusts the monitor; and it is executed as it was
      asked for, under the monitor's name. */
  lemma AllowedCallsAreExecuted(cfg: Config, rules: set<Rule>, sender: string, target: Target, answer: Option<string>)
    ensures Run(cfg, rules, [ToMonitor(sender, ProxyRequest(target, answer)), Deliver(0)]).executed
         == if && target.topic != "" && target.action != ""
               && Allowed(rules, sender, target.topic, target.action)
               && Allowed(rules, cfg.monitorTopic, target.topic, "ipc_inbound_request")
               && target.topic in cfg.workers && target.action in cfg.workers[target.topic].actions
               && cfg.monitorTopic in cfg.workers[target.topic].trusted
            then [Envelope(target.topic, target.action, cfg.monitorTopic, target.data)] else []
  {
    var e := ToMonitor(sender, ProxyRequest(target, answer));
    assert [e, Deliver(0)][..1] == [e] && [e][..0] == [];
    assert Run(cfg, rules, []) == System(rules, [], []);
    hide Allowed;
  }

  /** The administrator names himself in this call. */
  predicate ByAdmin(cfg: Config, e: Event) {
    e.ToMonitor? && e.sender != "" && e.sender == cfg.adminSender
  }

  predicate Sets(cfg: Config, e: Event, rule: Rule) {
    ByAdmin(cfg, e) && e.call == SetPolicy(rule) && rule.sender != "" && rule.topic != "" && rule.action != ""
  }

  predicate Drops(cfg: Config, e: Event, rule: Rule) {
    ByAdmin(cfg, e) && (e.call == ClearPolicies
                        || (e.call == RemovePolicy(rule) && rule.sender != "" && rule.topic != "" && rule.action != ""))
  }

  /** From event k on the rule was not dropped. */
  predicate KeptFrom(cfg: Config, events: seq<Event>, k: nat, rule: Rule) {
    forall j :: k <= j < |events| ==> !Drops(cfg, events[j], rule)
  }

  /** A rule is in force exactly when the administrator set it, or it was there from the start, and he
      has neither removed it nor cleared the rules since. */
  lemma {:induction false} RulesInForce(cfg: Config, initial: set<Rule>, events: seq<Event>, rule: Rule)
    ensures rule in Run(cfg, initial, events).policies
       <==> || (rule in initial && KeptFrom(cfg, events, 0, rule))
            || (exists k: nat :: k < |events| && Sets(cfg, events[k], rule) && KeptFrom(cfg, events, k + 1, rule))
  {
    if events != [] {
      var n := |events| - 1;
      var before, e := events[..n], events[n];
      RulesInForce(cfg, initial, before, rule);
      assert forall k: nat :: k <= n ==>
        (KeptFrom(cfg, events, k, rule) <==> KeptFrom(cfg, before, k, rule) && !Drops(cfg, e, rule));
      OneEventOnRule(cfg, Run(cfg, initial, before), e, rule);
      if Sets(cfg, e, rule) {
        assert KeptFrom(cfg, events, n + 1, rule);
      }
    }
  }

  lemma OneEventOnRule(cfg: Config, s: System, e: Event, rule: Rule)
    ensures rule in Step(cfg, s, e).policies
       <==> Sets(cfg, e, rule) || (rule in s.policies && !Drops(cfg, e, rule))
  {
  }

  /** The rules change only through the administrator. */
  lemma {:induction false} RulesChangeOnlyByAdmin(cfg: Config, initial: set<Rule>, events: seq<Event>, more: seq<Event>)
    requires forall e <- more :: e.ToMonitor? ==> !MayManage(cfg, e.sender)
    ensures Run(cfg, initial, events + more).policies == Run(cfg, initial, events).policies
  {
    if more == [] {
      assert events + more == events;
    } else {
      var n := |more| - 1;
      assert (events + more)[..|events| + n] == events + more[..n];
      assert more[n] in more;
      RulesChangeOnlyByAdmin(cfg, initial, events, more[..n]);
    }
  }

  /** With no administrator named, the initial rules stay for ever. */
  lemma {:induction false} RulesAreFixedWithoutAdmin(cfg: Config, initial: set<Rule>, events: seq<Event>)
    requires cfg.adminSender == ""
    ensures Run(cfg, initial, events).policies == initial
  {
    RulesChangeOnlyByAdmin(cfg, initial, [], events);
    assert [] + events == events;
  }

  /** Rules stay complete, so a caller without a name is never let through. */
  lemma {:induction false} NamelessCallersAreDenied(cfg: Config, initial: set<Rule>, events: seq<Event>, topic: string,
      action: string)
    requires forall rule <- initial :: Complete(rule)
    ensures forall rule <- Run(cfg, initial, events).policies :: Complete(rule)
    ensures !Allowed(Run(cfg, initial, events).policies, "", topic, action)
  {
    if events != [] {
      NamelessCallersAreDenied(cfg, initial, events[..|events| - 1], topic, action);
    }
  }

  /** Once the administrator has cleared the rules and until a rule is set again, the monitor puts
      nothing more on the bus. */
  lemma {:induction false} NothingPassesAfterClear(cfg: Config, initial: set<Rule>, events: seq<Event>,
      more: seq<Event>)
    requires events != [] && events[|events| - 1].ToMonitor? && events[|events| - 1].call.ClearPolicies?
    requires MayManage(cfg, events[|events| - 1].sender)
    requires forall e <- more :: !(e.ToMonitor? && e.call.SetPolicy?) && !e.Direct?
    ensures var s, s' := Run(cfg, initial, events), Run(cfg, initial, events + more);
            s'.policies == {} && s'.onBus == s.onBus
  {
    if more == [] {
      assert events + more == events;
    } else {
      var n := |more| - 1;
      assert (events + more)[..|events| + n] == events + more[..n];
      assert more[n] in more;
      NothingPassesAfterClear(cfg, initial, events, more[..n]);
    }
  }

  /** The bus does not check the sender field, so the theorem rests on that name being genuine: a
      message published under it directly is executed without any rule and without the monitor. */
  lemma NameMustBeGenuine(cfg: Config, topic: string, action: string, data: string)
    requires Executes(cfg, Envelope(topic, action, cfg.monitorTopic, data))
    ensures var e := Envelope(topic, action, cfg.monitorTopic, data);
            var events := [Direct(e), Deliver(0)];
            && !OnlyMonitorIsTrusted(cfg, events)
            && Run(cfg, {}, events) == System({}, [e], [e])
            && !WasForwarded(cfg, {}, events, e)
  {
    var e := Envelope(topic, action, cfg.monitorTopic, data);
    var events := [Direct(e), Deliver(0)];
    assert events[0] in events;
    assert events[..1] == [Direct(e)] && [Direct(e)][..0] == [];
    assert Run(cfg, {}, []) == System({}, [], []);
    assert Run(cfg, {}, [Direct(e)]) == System({}, [e], []);
  }
}
