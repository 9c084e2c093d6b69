/** The message dispatcher shared by components and systems, and the gateway's proxy handler. */
module Dispatch {
  import opened Wrappers
  import opened RequestReply

  const DEAD_LETTER_TOPIC := "errors.dead_letters"
  const LOG_EVENT := "log_event"

  /** What a handler does: it returns a payload or nothing, or it raises. */
  datatype Outcome = Result(payload: Option<Payload>) | Raised(error: string)

  type Handler = Message -> Outcome

  datatype Publication = Publication(topic: string, message: Message)

  /** The identity of a dispatcher: its id, its topic, and the journal it reports to (blank for none). */
  datatype Identity = Identity(id: string, topic: string, journalTopic: string)

  function CreateResponse(correlationId: Option<string>, payload: Payload, sender: string, success: bool,
      error: string): Message
  {
    Message("response", sender, Some(payload), correlationId, None, Some(success),
            if error == "" then None else Some(error))
  }

  function UnknownAction(action: string): Payload {
    map["error" := "Unknown action: " + action]
  }

  function Truthy(s: Option<string>): bool {
    s.Some? && s.value != ""
  }

  function DeadLetter(me: Identity, error: string): Message {
    Message("dead_letter", me.id, None, None, None, None, Some(error))
  }

  function JournalEntry(me: Identity, m: Message, success: bool, error: string): seq<Publication> {
    if me.journalTopic == "" || m.action == LOG_EVENT then []
    else [Publication(me.journalTopic, Message(
      LOG_EVENT, me.topic,
      Some(map["event" := m.action, "sender" := m.sender, "success" := if success then "true" else "false",
               "error" := error, "component_id" := me.id]),
      None, None, None, None))]
  }

  /** The response owed to a request, given what its handler did (`None`: no such handler). */
  function Response(me: Identity, m: Message, outcome: Option<Outcome>): Option<Message> {
    if m.action == "" || !Truthy(m.replyTo) then None
    else match outcome
      case None => Some(Message("error", "", Some(UnknownAction(m.action)), m.correlationId, None, None, None))
      case Some(Raised(e)) => Some(CreateResponse(m.correlationId, map[], me.id, false, e))
      case Some(Result(Some(p))) => Some(CreateResponse(m.correlationId, p, me.id, true, ""))
      case Some(Result(None)) => None
  }

  /** The response if one is owed; failures that nobody is waiting for become dead letters. */
  function Answer(me: Identity, m: Message, outcome: Option<Outcome>): seq<Publication> {
    var r := Response(me, m, outcome);
    if r.Some? then [Publication(m.replyTo.value, r.value)]
    else match outcome
      case None => [Publication(DEAD_LETTER_TOPIC, DeadLetter(me, "Unknown action: " + m.action))]
      case Some(Raised(e)) => [Publication(DEAD_LETTER_TOPIC, DeadLetter(me, e))]
      case Some(Result(_)) => []
  }

  function Journal(me: Identity, m: Message, outcome: Option<Outcome>): seq<Publication> {
    match outcome
    case None => []
    case Some(Raised(e)) => JournalEntry(me, m, false, e)
    case Some(Result(_)) => JournalEntry(me, m, true, "")
  }

  /** Everything dispatching publishes, in order. */
  function Published(me: Identity, m: Message, outcome: Option<Outcome>): seq<Publication> {
    if m.action == "" then [] else Answer(me, m, outcome) + Journal(me, m, outcome)
  }

  predicate IsResponse(p: Publication) {
    p.message.action == "response" || p.message.action == "error"
  }

  predicate IsJournalEntry(p: Publication) {
    p.message.action == LOG_EVENT
  }

  function Those(pubs: seq<Publication>, which: Publication -> bool): seq<Publication> {
    if pubs == [] then [] else (if which(pubs[0]) then [pubs[0]] else []) + Those(pubs[1..], which)
  }

  /** The publications that answer a request. */
  function Responses(pubs: seq<Publication>): seq<Publication> {
    Those(pubs, IsResponse)
  }

  function JournalEntries(pubs: seq<Publication>): seq<Publication> {
    Those(pubs, IsJournalEntry)
  }

  lemma {:induction false} ThoseConcat(a: seq<Publication>, b: seq<Publication>, which: Publication -> bool)
    ensures Those(a + b, which) == Those(a, which) + Those(b, which)
  {
    if a == [] {
      assert a + b == b;
    } else {
      ThoseConcat(a[1..], b, which);
      var head := if which(a[0]) then [a[0]] else [];
      assert Those(a + b, which) == head + Those(a[1..] + b, which) by {
        assert (a + b)[1..] == a[1..] + b;
      }
      assert head + (Those(a[1..], which) + Those(b, which)) == (head + Those(a[1..], which)) + Those(b, which);
    }
  }

  lemma ThoseOfOne(p: Publication, which: Publication -> bool)
    ensures Those([p], which) == if which(p) then [p] else []
  {
    assert [p][1..] == [];
  }

  class Dispatcher {
    const me: Identity
    var handlers: map<string, Handler>
    var outbox: seq<Publication>  // everything given to `publish`, delivered or not

    constructor (me: Identity)
      ensures this.me == me && handlers == map[] && outbox == []
    {
      this.me := me;
      handlers, outbox := map[], [];
    }

    method RegisterHandler(action: string, handler: Handler)
      modifies this`handlers
      ensures handlers == old(handlers)[action := handler]
    {
      handlers := handlers[action := handler];
    }

    /** The gateway's registration loop: one proxy handler for each routed action. */
    method RegisterRoutes(routing: map<string, string>, proxy: Handler)
      modifies this`handlers
      ensures handlers.Keys == old(handlers).Keys + routing.Keys
      ensures forall a <- handlers :: handlers[a] == if a in routing then proxy else old(handlers)[a]
    {
      var todo := routing.Keys;
      while todo != {}
        invariant todo <= routing.Keys
        invariant handlers.Keys == old(handlers).Keys + (routing.Keys - todo)
        invariant forall a <- handlers :: handlers[a] == if a in routing && a !in todo then proxy else old(handlers)[a]
      {
        var action :| action in todo;
        RegisterHandler(action, proxy);
        todo := todo - {action};
      }
    }

    function OutcomeOf(m: Message): Option<Outcome>
      reads this`handlers
    {
      if m.action in handlers then Some(handlers[m.action](m)) else None
    }

    method Publish(topic: string, message: Message)
      modifies this`outbox
      ensures outbox == old(outbox) + [Publication(topic, message)]
    {
      outbox := outbox + [Publication(topic, message)];
    }

    method EmitJournal(m: Message, success: bool, error: string)
      modifies this`outbox
      ensures outbox == old(outbox) + JournalEntry(me, m, success, error)
    {
      if me.journalTopic == "" {
        return;
      }
      if m.action == LOG_EVENT {
        return;
      }
      var details := map["event" := m.action, "sender" := m.sender, "success" := if success then "true" else "false",
                         "error" := error, "component_id" := me.id];
      Publish(me.journalTopic, Message(LOG_EVENT, me.topic, Some(details), None, None, None, None));
    }

    method HandleMessage(m: Message)
      modifies this`outbox
      ensures outbox == old(outbox) + Published(me, m, OutcomeOf(m))
      ensures m.action in handlers ==> outbox == old(outbox) + Published(me, m, Some(handlers[m.action](m)))
      ensures m.action !in handlers ==> outbox == old(outbox) + Published(me, m, None)
    {
      if m.action == "" {
        return;
      }
      if m.action !in handlers {
        if Truthy(m.replyTo) {
          Publish(m.replyTo.value,
                  Message("error", "", Some(UnknownAction(m.action)), m.correlationId, None, None, None));
        } else {
          Publish(DEAD_LETTER_TOPIC, DeadLetter(me, "Unknown action: " + m.action));
        }
        return;
      }
      match handlers[m.action](m) {
        case Result(payload) =>
          if Truthy(m.replyTo) && payload.Some? {
            Publish(m.replyTo.value, CreateResponse(m.correlationId, payload.value, me.id, true, ""));
          }
          EmitJournal(m, true, "");
        case Raised(error) =>
          if Truthy(m.replyTo) {
            Publish(m.replyTo.value, CreateResponse(m.correlationId, map[], me.id, false, error));
          } else {
            Publish(DEAD_LETTER_TOPIC, DeadLetter(me, error));
          }
          EmitJournal(m, false, error);
      }
    }
  }

  /** Who hears what of a message: its sender, if it named a topic, the payload, the error raised or
      that the action is unknown; else the dead letters, of a failure; and the journal, of every
      action that was known. */
  lemma DispatchMeans(me: Identity, m: Message, outcome: Option<Outcome>)
    ensures var pubs, awaited := Published(me, m, outcome), m.replyTo.Some? && m.replyTo.value != "";
            var journal := (success: bool, error: string) =>
              if me.journalTopic == "" || m.action == "log_event" then []
              else [Publication(me.journalTopic, Message(
                      "log_event", me.topic,
                      Some(map["event" := m.action, "sender" := m.sender,
                               "success" := if success then "true" else "false",
                               "error" := error, "component_id" := me.id]), None, None, None, None))];
            && (m.action == "" ==> pubs == [])
            && (m.action != "" && outcome.None? ==>
                  var error := "Unknown action: " + m.action;
                  pubs == [if awaited then Publication(m.replyTo.value, Message(
                             "error", "", Some(map["error" := error]), m.correlationId, None, None, None))
                           else Publication("errors.dead_letters", Message(
                             "dead_letter", me.id, None, None, None, None, Some(error)))])
            && (m.action != "" && outcome.Some? && outcome.value.Result? ==>
                  pubs == (if !awaited || outcome.value.payload.None? then []
                           else [Publication(m.replyTo.value, Message(
                             "response", me.id, outcome.value.payload, m.correlationId, None, Some(true), None))])
                          + journal(true, ""))
            && (m.action != "" && outcome.Some? && outcome.value.Raised? ==>
                  var error := outcome.value.error;
                  pubs == [if awaited then Publication(m.replyTo.value, Message(
                             "response", me.id, Some(map[]), m.correlationId, None, Some(false),
                             if error == "" then None else Some(error)))
                           else Publication("errors.dead_letters", Message(
                             "dead_letter", me.id, None, None, None, None, Some(error)))]
                          + journal(false, error))
  {
  }

  /** At most one response goes out per request, exactly the one owed, to the topic the request
      names and under its correlation id; at most one journal entry follows. */
  lemma AtMostOneResponse(me: Identity, m: Message, outcome: Option<Outcome>)
    ensures var pubs := Published(me, m, outcome);
            var r := Response(me, m, outcome);
            && Responses(pubs) == (if r.Some? then [Publication(m.replyTo.value, r.value)] else [])
            && (r.Some? ==> r.value.correlationId == m.correlationId)
            && |JournalEntries(pubs)| <= 1
            && forall p <- JournalEntries(pubs) :: p.topic == me.journalTopic && p.topic != ""
  {
    hide Those;
    if m.action == "" {
      NothingPublished();
    } else {
      PublishedParts(me, m, outcome);
      AnswerClassified(me, m, outcome);
      JournalClassified(me, m, outcome);
      JournalIsShort(me, m, outcome);
    }
  }

  lemma NothingPublished()
    ensures Responses([]) == [] && JournalEntries([]) == []
  {
  }

  lemma PublishedParts(me: Identity, m: Message, outcome: Option<Outcome>)
    requires m.action != ""
    ensures var pubs, answer, journal := Published(me, m, outcome), Answer(me, m, outcome), Journal(me, m, outcome);
            && Responses(pubs) == Responses(answer) + Responses(journal)
            && JournalEntries(pubs) == JournalEntries(answer) + JournalEntries(journal)
  {
    hide Answer, Journal, Those;
    ThoseConcat(Answer(me, m, outcome), Journal(me, m, outcome), IsResponse);
    ThoseConcat(Answer(me, m, outcome), Journal(me, m, outcome), IsJournalEntry);
  }

  lemma JournalIsShort(me: Identity, m: Message, outcome: Option<Outcome>)
    ensures |Journal(me, m, outcome)| <= 1
    ensures forall p <- Journal(me, m, outcome) :: p.topic == me.journalTopic && p.topic != ""
  {
  }

  lemma AnswerClassified(me: Identity, m: Message, outcome: Option<Outcome>)
    ensures JournalEntries(Answer(me, m, outcome)) == []
    ensures Responses(Answer(me, m, outcome))
         == if Response(me, m, outcome).Some? then Answer(me, m, outcome) else []
  {
    var answer := Answer(me, m, outcome);
    if answer != [] {
      ThoseOfOne(answer[0], IsResponse);
      ThoseOfOne(answer[0], IsJournalEntry);
      assert answer == [answer[0]];
    }
  }

  lemma JournalClassified(me: Identity, m: Message, outcome: Option<Outcome>)
    ensures Responses(Journal(me, m, outcome)) == []
    ensures JournalEntries(Journal(me, m, outcome)) == Journal(me, m, outcome)
  {
    var journal := Journal(me, m, outcome);
    if journal != [] {
      ThoseOfOne(journal[0], IsResponse);
      ThoseOfOne(journal[0], IsJournalEntry);
      assert journal == [journal[0]];
    }
  }

  /** A journal entry never leads to another one, whoever handles it and whatever its handler does. */
  lemma JournalDoesNotEcho(me: Identity, m: Message, outcome: Option<Outcome>, other: Identity, then_: Option<Outcome>)
    ensures forall p <- JournalEntries(Published(me, m, outcome)) ::
              JournalEntries(Published(other, p.message, then_)) == []
  {
    forall p | p in JournalEntries(Published(me, m, outcome))
      ensures JournalEntries(Published(other, p.message, then_)) == []
    {
      ThoseQualify(Published(me, m, outcome), IsJournalEntry);
      assert Journal(other, p.message, then_) == [];
      ThoseConcat(Answer(other, p.message, then_), [], IsJournalEntry);
      AnswerClassified(other, p.message, then_);
    }
  }

  lemma {:induction false} ThoseQualify(pubs: seq<Publication>, which: Publication -> bool)
    ensures forall p <- Those(pubs, which) :: which(p)
  {
    if pubs != [] {
      ThoseQualify(pubs[1..], which);
    }
  }

  // ----- the gateway

  /** What the gateway's proxy handler makes of the reply to its inner call (`None`: it timed out). */
  function Proxy(routing: map<string, string>, m: Message, inner: Option<Message>): Outcome {
    if m.action !in routing || routing[m.action] == ""
    then Result(Some(map["error" := "no route for action: " + m.action]))
    else if inner.None? then Result(Some(map["error" := "timeout waiting for " + m.action]))
    else if inner.value.success == Some(true) then
      if inner.value.payload.Some? then Result(inner.value.payload) else Raised("'payload'")
    else
      var error := if inner.value.error.Some? then inner.value.error.value else "failed: " + m.action;
      Result(Some(map["error" := error]))
  }

  /** An action that is not routed, or to no topic, is answered with that and nothing else. */
  lemma UnroutedIsRefused(routing: map<string, string>, m: Message, inner: Option<Message>)
    requires m.action in routing ==> routing[m.action] == ""
    ensures Proxy(routing, m, inner) == Result(Some(map["error" := "no route for action: " + m.action]))
  {
  }

  /** The message a gateway sends to the component it routes to, before the bus addresses it. */
  function InnerMessage(gate: Identity, m: Message): Message {
    Message(m.action, gate.id, Some(if m.payload.Some? then m.payload.value else map[]), None, None, None, None)
  }
}
