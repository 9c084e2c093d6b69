/** Request/response over the bus: the table of pending correlation ids, the futures it hands
    out, and every interleaving of callers, replies, time-outs and failed publications. */
module RequestReply {
  import opened Wrappers

  type Payload = map<string, string>

  datatype Message = Message(
    action: string, sender: string, payload: Option<Payload>,
    correlationId: Option<string>, replyTo: Option<string>,
    success: Option<bool>, error: Option<string>)

  // ----- what a reply does to the pending table, for any kind of future reference

  /** The future a reply completes: the one registered under its correlation id, if any. */
  function Completes<F>(pending: map<string, F>, m: Message): Option<F> {
    if m.correlationId.Some? && m.correlationId.value != "" && m.correlationId.value in pending
    then Some(pending[m.correlationId.value])
    else None
  }

  function PendingAfter<F>(pending: map<string, F>, m: Message): map<string, F> {
    if Completes(pending, m).Some? then pending - {m.correlationId.value} else pending
  }

  // ----- the bus object

  class Future {
    var result: Option<Message>

    constructor ()
      ensures result == None
    {
      result := None;
    }

    /** Completing a future twice is an error in the original, hence the precondition. */
    method SetResult(m: Message)
      requires result.None?
      modifies this
      ensures result == Some(m)
    {
      result := Some(m);
    }
  }

  /** The three sections that run under the table's lock. */
  class KafkaSystemBus {
    var pending: map<string, Future>

    /** Every registered future is still open, and no future is registered twice. */
    ghost predicate Valid()
      reads this, pending.Values
    {
      && (forall id <- pending :: pending[id].result.None?)
      && (forall a, b | a in pending && b in pending && a != b :: pending[a] != pending[b])
    }

    constructor ()
      ensures Valid() && pending == map[]
    {
      pending := map[];
    }

    method Register(id: string) returns (f: Future)
      requires Valid() && id !in pending
      modifies this
      ensures Valid() && fresh(f) && f.result == None
      ensures pending == old(pending)[id := f]
    {
      f := new Future();
      pending := pending[id := f];
    }

    method HandleReply(m: Message)
      requires Valid()
      modifies this, pending.Values
      ensures Valid()
      ensures pending == PendingAfter(old(pending), m)
      ensures var f := Completes(old(pending), m); f.Some? ==> f.value.result == Some(m)
      ensures forall f <- old(pending).Values :: Some(f) != Completes(old(pending), m) ==> unchanged(f)
      ensures forall id <- old(pending) ::
                if id != "" && m.correlationId == Some(id) then id !in pending && old(pending)[id].result == Some(m)
                else id in pending && pending[id] == old(pending)[id] && pending[id].result == None
    {
      if m.correlationId.None? || m.correlationId.value == "" {
        return;
      }
      var id := m.correlationId.value;
      if id in pending {
        var future := pending[id];
        pending := pending - {id};
        future.SetResult(m);
      }
    }

    method Forget(id: string)
      requires Valid()
      modifies this
      ensures Valid() && pending == old(pending) - {id}
    {
      if id in pending {
        pending := pending - {id};
      }
    }
  }

  // ----- all interleavings

  /** Where a call of `request` stands: its id is registered; its message is out and it waits; it
      has failed to publish or timed out but has not cleaned up yet; it has returned. */
  datatype Phase = Registered | Waiting | GaveUp | Returned(result: Option<Message>)

  datatype Caller = Caller(future: nat, phase: Phase)

  /** Futures are numbered; each holds the list of results it has been given. */
  datatype BusState = BusState(pending: map<string, nat>, futures: seq<seq<Message>>, callers: map<string, Caller>)
  {
    predicate In(id: string, phase: Phase) {
      id in callers && callers[id].phase == phase
    }

    predicate HasResult(id: string)
      requires id in callers
    {
      callers[id].future < |futures| && futures[callers[id].future] != []
    }

    function Move(id: string, phase: Phase): BusState
      requires id in callers
    {
      this.(callers := callers[id := callers[id].(phase := phase)])
    }
  }

  datatype Event =
    | Issue(id: string)
    | Publish(id: string, ok: bool)
    | Reply(message: Message)
    | Timeout(id: string)
    | CleanUp(id: string)
    | Collect(id: string)

  const INITIAL_BUS := BusState(map[], [], map[])

  /** One atomic section of one thread. An event whose turn has not come changes nothing; a new
      call draws an id never used before. */
  function Step(s: BusState, e: Event): BusState {
    match e
    case Issue(id) =>
      if id in s.callers || id == "" then s
      else BusState(s.pending[id := |s.futures|], s.futures + [[]], s.callers[id := Caller(|s.futures|, Registered)])
    case Publish(id, ok) =>
      if s.In(id, Registered) then s.Move(id, if ok then Waiting else GaveUp) else s
    case Reply(m) =>
      var f := Completes(s.pending, m);
      if f.Some? && f.value < |s.futures|
      then s.(pending := PendingAfter(s.pending, m), futures := s.futures[f.value := s.futures[f.value] + [m]])
      else s
    case Timeout(id) =>
      if s.In(id, Waiting) && !s.HasResult(id) then s.Move(id, GaveUp) else s
    case CleanUp(id) =>
      if s.In(id, GaveUp) then s.Move(id, Returned(None)).(pending := s.pending - {id}) else s
    case Collect(id) =>
      if s.In(id, Waiting) && s.HasResult(id)
      then s.Move(id, Returned(Some(s.futures[s.callers[id].future][0])))
      else s
  }

  function Run(events: seq<Event>): BusState {
    if events == [] then INITIAL_BUS
    else Step(Run(events[..|events| - 1]), events[|events| - 1])
  }

  /** The first reply to carry this id after the call was issued. */
  function FirstReply(events: seq<Event>, id: string): Option<Message> {
    if events == [] then None
    else
      var before, e := events[..|events| - 1], events[|events| - 1];
      var earlier := FirstReply(before, id);
      if earlier.Some? then earlier
      else if e.Reply? && e.message.correlationId == Some(id) && id in Run(before).callers then Some(e.message)
      else None
  }

  /** What holds in every reachable state. */
  ghost predicate Consistent(s: BusState) {
    && (forall id <- s.callers :: id != "" && s.callers[id].future < |s.futures|)
    && (forall a, b | a in s.callers && b in s.callers && a != b :: s.callers[a].future != s.callers[b].future)
    && (forall id <- s.pending :: id in s.callers && s.pending[id] == s.callers[id].future)
    && (forall id <- s.callers :: CallConsistent(s, id, s.callers[id]))
  }

  ghost predicate CallConsistent(s: BusState, id: string, c: Caller)
    requires c.future < |s.futures|
  {
    var results := s.futures[c.future];
    // resolved at most once, and only by a reply with this id
    && |results| <= 1
    && (forall m <- results :: m.correlationId == Some(id))
    // while the call is under way its id is pending exactly as long as the future is open
    && (!c.phase.Returned? ==> (id in s.pending <==> results == []))
    // once it has returned, by any path, its id has left the table
    && (c.phase.Returned? ==> id !in s.pending)
    && (c.phase.Returned? && c.phase.result.Some? ==> results == [c.phase.result.value])
  }

  lemma StepKeepsConsistent(s: BusState, e: Event)
    requires Consistent(s)
    ensures Consistent(Step(s, e))
  {
    match e
    case Issue(id) => IssueKeepsConsistent(s, id);
    case Reply(m) => ReplyKeepsConsistent(s, m);
    case CleanUp(id) => CleanUpKeepsConsistent(s, id);
    case Publish(id, ok) => if s.In(id, Registered) { MoveKeepsConsistent(s, id, if ok then Waiting else GaveUp); }
    case Timeout(id) => if s.In(id, Waiting) { MoveKeepsConsistent(s, id, GaveUp); }
    case Collect(id) =>
      if s.In(id, Waiting) && s.HasResult(id) {
        MoveKeepsConsistent(s, id, Returned(Some(s.futures[s.callers[id].future][0])));
      }
  }

  lemma IssueKeepsConsistent(s: BusState, id: string)
    requires Consistent(s)
    ensures Consistent(Step(s, Issue(id)))
  {
    var s' := Step(s, Issue(id));
    forall k | k in s'.callers ensures CallConsistent(s', k, s'.callers[k]) {
      assert k in s.callers ==> CallConsistent(s, k, s.callers[k]);
    }
  }

  lemma ReplyKeepsConsistent(s: BusState, m: Message)
    requires Consistent(s)
    ensures Consistent(Step(s, Reply(m)))
  {
    var s' := Step(s, Reply(m));
    forall k | k in s'.callers ensures CallConsistent(s', k, s'.callers[k]) {
      assert CallConsistent(s, k, s.callers[k]);
    }
  }

  lemma CleanUpKeepsConsistent(s: BusState, id: string)
    requires Consistent(s)
    ensures Consistent(Step(s, CleanUp(id)))
  {
    var s' := Step(s, CleanUp(id));
    forall k | k in s'.callers ensures CallConsistent(s', k, s'.callers[k]) {
      assert CallConsistent(s, k, s.callers[k]);
    }
  }

  lemma MoveKeepsConsistent(s: BusState, id: string, phase: Phase)
    requires Consistent(s) && id in s.callers && !s.callers[id].phase.Returned?
    requires phase.Returned? ==> s.HasResult(id) && phase.result == Some(s.futures[s.callers[id].future][0])
    ensures Consistent(s.Move(id, phase))
  {
    var s' := s.Move(id, phase);
    forall k | k in s'.callers ensures CallConsistent(s', k, s'.callers[k]) {
      assert CallConsistent(s, k, s.callers[k]);
    }
  }

  /** Under any interleaving each future is completed at most once, only by a reply carrying its
      own id, and a call that has returned has left nothing in the pending table. */
  lemma {:induction false} EveryRunIsConsistent(events: seq<Event>)
    ensures Consistent(Run(events))
  {
    if events != [] {
      EveryRunIsConsistent(events[..|events| - 1]);
      StepKeepsConsistent(Run(events[..|events| - 1]), events[|events| - 1]);
    }
  }

  /** A reply that is late, repeated or addressed to nobody changes nothing at all: in every run,
      once the call has returned or its future has been completed. */
  lemma LateReplyChangesNothing(events: seq<Event>, id: string, m: Message)
    requires m.correlationId == Some(id)
    requires var s := Run(events);
             id in s.callers ==> s.callers[id].phase.Returned? || s.HasResult(id)
    ensures Run(events + [Reply(m)]) == Run(events)
  {
    EveryRunIsConsistent(events);
    var s := Run(events);
    assert (events + [Reply(m)])[..|events|] == events;
    if id in s.callers {
      assert CallConsistent(s, id, s.callers[id]);
    }
  }

  /** When every call has returned the table is empty. */
  lemma NothingLeaks(events: seq<Event>)
    requires forall id <- Run(events).callers :: Run(events).callers[id].phase.Returned?
    ensures Run(events).pending == map[]
  {
    EveryRunIsConsistent(events);
    var s := Run(events);
    assert forall id <- s.callers :: CallConsistent(s, id, s.callers[id]);
  }

  ghost predicate Answered(events: seq<Event>, s: BusState, id: string)
    requires id in s.callers && s.callers[id].future < |s.futures|
  {
    var results := s.futures[s.callers[id].future];
    && (id in s.pending ==> FirstReply(events, id) == None)
    && (results != [] ==> FirstReply(events, id) == Some(results[0]))
  }

  lemma {:induction false} FutureHoldsFirstReply(events: seq<Event>, id: string)
    requires id in Run(events).callers
    ensures Consistent(Run(events)) && Answered(events, Run(events), id)
  {
    EveryRunIsConsistent(events);
    var before, e := events[..|events| - 1], events[|events| - 1];
    var s := Run(before);
    EveryRunIsConsistent(before);
    hide Step;
    assert before + [e] == events;
    if id in s.callers {
      FutureHoldsFirstReply(before, id);
      AnsweredStep(before, s, e, id);
    } else {
      NoReplyBeforeIssue(before, id);
      NewCallIsIssued(s, e, id);
    }
  }

  /** Where each event takes a call that is under way: nothing else moves it. */
  lemma PhaseAfter(s: BusState, e: Event, id: string)
    requires Consistent(s) && id in s.callers
    ensures var c, results := s.callers[id], s.futures[s.callers[id].future];
            id in Step(s, e).callers && Step(s, e).callers[id] == c.(phase :=
              if c.phase == Registered && e == Publish(id, true) then Waiting
              else if c.phase == Registered && e == Publish(id, false) then GaveUp
              else if c.phase == Waiting && e == Timeout(id) && results == [] then GaveUp
              else if c.phase == Waiting && e == Collect(id) && results != [] then Returned(Some(results[0]))
              else if c.phase == GaveUp && e == CleanUp(id) then Returned(None)
              else c.phase)
  {
  }

  /** A new call gets a new open future under its id; a reply whose id is pending goes into its future. */
  lemma IssueAndReply(s: BusState, id: string, m: Message)
    requires Consistent(s) && id != ""
    ensures id !in s.callers ==>
              Step(s, Issue(id)) == BusState(s.pending[id := |s.futures|], s.futures + [[]],
                                             s.callers[id := Caller(|s.futures|, Registered)])
    ensures id in s.pending && m.correlationId == Some(id) ==>
              var f := s.callers[id].future;
              Step(s, Reply(m)) == BusState(s.pending - {id}, s.futures[f := s.futures[f] + [m]], s.callers)
  {
  }

  /** The event by which a call's own thread moves on. */
  function OwnMove(s: BusState, id: string): Event
    requires id in s.callers
  {
    match s.callers[id].phase
    case Registered => Publish(id, false)
    case Waiting => if s.HasResult(id) then Collect(id) else Timeout(id)
    case _ => CleanUp(id)
  }

  lemma OwnMoveMoves(s: BusState, id: string)
    requires Consistent(s) && id in s.callers
    ensures var s' := Step(s, OwnMove(s, id));
            id in s'.callers && (s'.callers[id].phase.GaveUp? || s'.callers[id].phase.Returned?)
            && (s.callers[id].phase.GaveUp? || s.callers[id].phase.Returned? ==> s'.callers[id].phase.Returned?)
  {
    hide Step;
    PhaseAfter(s, OwnMove(s, id), id);
  }

  /** No call is stuck: from every state of every run, its own thread can bring it back in two steps. */
  lemma EveryCallCanReturn(events: seq<Event>, id: string)
    requires id in Run(events).callers
    ensures exists e, f ::
              id in Run(events + [e] + [f]).callers && Run(events + [e] + [f]).callers[id].phase.Returned?
  {
    hide Step, Consistent, OwnMove;
    EveryRunIsConsistent(events);
    var e := OwnMove(Run(events), id);
    OneMoreEvent(events, e);
    OwnMoveMoves(Run(events), id);
    EveryRunIsConsistent(events + [e]);
    var f := OwnMove(Run(events + [e]), id);
    OneMoreEvent(events + [e], f);
    OwnMoveMoves(Run(events + [e]), id);
    assert id in Run(events + [e] + [f]).callers;
  }

  lemma OneMoreEvent(events: seq<Event>, e: Event)
    ensures Run(events + [e]) == Step(Run(events), e)
  {
    assert (events + [e])[..|events|] == events;
  }

  /** What one step can do to one call: only a reply with its id, while it is pending, gives its
      future a result, and that takes the id out of the table. */
  lemma StepEffect(s: BusState, e: Event, id: string)
    requires Consistent(s) && id in s.callers
    ensures var s' := Step(s, e);
            var f := s.callers[id].future;
            && id in s'.callers && s'.callers[id].future == f && f < |s'.futures|
            && (if e.Reply? && e.message.correlationId == Some(id) && id in s.pending
                then s'.futures[f] == s.futures[f] + [e.message] && id !in s'.pending
                else s'.futures[f] == s.futures[f] && (id in s'.pending ==> id in s.pending))
  {
    hide CallConsistent;
    if e.Reply? && Completes(s.pending, e.message).Some? {
      var other := e.message.correlationId.value;
      assert s.pending[other] == s.callers[other].future;
    }
  }

  /** Calls are only ever added, by their own issue, and leave `Registered` only by publishing. */
  lemma StepCallers(s: BusState, e: Event)
    ensures var s' := Step(s, e);
            && s'.callers.Keys == s.callers.Keys + (if e.Issue? && e.id != "" then {e.id} else {})
            && (forall id <- s'.callers :: s'.callers[id].phase.Registered? ==>
                  (if id in s.callers then s.callers[id].phase.Registered? && !(e.Publish? && e.id == id)
                   else e == Issue(id)))
  {
  }

  /** Only a reply puts a message into a future, and only into one. */
  ghost predicate FuturesStep(s: BusState, s': BusState, e: Event) {
    && |s.futures| <= |s'.futures|
    && forall i :: 0 <= i < |s'.futures| ==>
         if i >= |s.futures| then s'.futures[i] == []
         else s'.futures[i] == s.futures[i] || (e.Reply? && s'.futures[i] == s.futures[i] + [e.message])
  }

  lemma StepMessages(s: BusState, e: Event)
    ensures FuturesStep(s, Step(s, e), e)
  {
  }

  lemma AnsweredStep(before: seq<Event>, s: BusState, e: Event, id: string)
    requires s == Run(before) && Consistent(s) && id in s.callers && Answered(before, s, id)
    ensures var s' := Step(s, e);
            && id in s'.callers && s'.callers[id].future < |s'.futures|
            && Answered(before + [e], s', id)
  {
    assert (before + [e])[..|before|] == before;
    assert CallConsistent(s, id, s.callers[id]);
    StepEffect(s, e, id);
    hide Step;
  }

  lemma NewCallIsIssued(s: BusState, e: Event, id: string)
    requires id !in s.callers && id in Step(s, e).callers
    ensures var s' := Step(s, e);
            e == Issue(id) && s'.callers[id].future < |s'.futures| && s'.futures[s'.callers[id].future] == []
  {
  }

  lemma {:induction false} NoReplyBeforeIssue(events: seq<Event>, id: string)
    requires id !in Run(events).callers
    ensures FirstReply(events, id) == None
  {
    if events != [] {
      NoReplyBeforeIssue(events[..|events| - 1], id);
    }
  }

  /** A call returns nothing, or the first reply that carried its id after it was issued. */
  lemma CallerGetsFirstReply(events: seq<Event>, id: string)
    requires id in Run(events).callers && Run(events).callers[id].phase.Returned?
    ensures var r := Run(events).callers[id].phase.result;
            r.Some? ==> r == FirstReply(events, id) && r.value.correlationId == Some(id)
  {
    FutureHoldsFirstReply(events, id);
    var s := Run(events);
    assert CallConsistent(s, id, s.callers[id]);
  }
}
