/** Waiting for one reply in a queue shared by several conversations: messages that do not match
    are set aside and put back when the wait ends, by return or by timeout. */
module ReplyQueue {
  import opened Wrappers

  datatype Message = Message(correlationId: Option<string>, sender: Option<string>, payload: string)

  datatype Wanted = Wanted(correlationId: string, sender: Option<string>)

  predicate Matches(m: Message, want: Wanted) {
    && m.correlationId == Some(want.correlationId)
    && (want.sender.Some? ==> m.sender == want.sender)
  }

  /** How a wait ends: the queue it leaves, the message it took (none on timeout), and how many
      rounds it went and messages it received. */
  datatype Outcome = Outcome(queue: seq<Message>, taken: Option<Message>, rounds: nat, received: nat)

  /** One list of messages per round: those that reach the queue before the round's receive ends.
      The deadline passes when the rounds are used up. */
  type Schedule = seq<seq<Message>>

  function Wait(queue: seq<Message>, stash: seq<Message>, arrivals: Schedule, want: Wanted): Outcome
    decreases |arrivals|
  {
    if arrivals == [] then Outcome(queue + stash, None, 0, 0)
    else
      var q := queue + arrivals[0];
      if q == [] then
        var o := Wait([], stash, arrivals[1..], want);
        o.(rounds := o.rounds + 1)
      else if Matches(q[0], want) then Outcome(q[1..] + stash, Some(q[0]), 1, 1)
      else
        var o := Wait(q[1..], stash + [q[0]], arrivals[1..], want);
        o.(rounds := o.rounds + 1, received := o.received + 1)
  }

  function Flatten(arrivals: Schedule): seq<Message> {
    if arrivals == [] then [] else arrivals[0] + Flatten(arrivals[1..])
  }

  /** Everything that was in the queue at some time during the wait, in order. */
  function Seen(queue: seq<Message>, arrivals: Schedule, rounds: nat): seq<Message>
    requires rounds <= |arrivals|
  {
    queue + Flatten(arrivals[..rounds])
  }

  // ----- the entity

  class BaseEntity {
    var replyQueue: seq<Message>
    /** Requests handed to the broker, by correlation id and receiver. */
    var brokerInQueue: seq<(string, string)>

    constructor ()
      ensures replyQueue == [] && brokerInQueue == []
    {
      replyQueue, brokerInQueue := [], [];
    }

    method WaitForResponse(want: Wanted, arrivals: Schedule) returns (response: Option<string>, ghost outcome: Outcome)
      modifies this`replyQueue
      ensures outcome == Wait(old(replyQueue), [], arrivals, want)
      ensures replyQueue == outcome.queue
      ensures response == if outcome.taken.Some? then Some(outcome.taken.value.payload) else None
    {
      var stash: seq<Message> := [];
      var round := 0;
      response := None;
      ghost var received := 0;
      ghost var whole := Wait(replyQueue, [], arrivals, want);
      outcome := whole;
      while round < |arrivals| && response.None?
        invariant round <= |arrivals|
        invariant response.None? ==>
          var rest := Wait(replyQueue, stash, arrivals[round..], want);
          whole == rest.(rounds := rest.rounds + round, received := rest.received + received)
        invariant response.Some? ==>
          whole.taken.Some? && response == Some(whole.taken.value.payload) && whole.queue == replyQueue + stash
        decreases |arrivals| - round, response.None?
      {
        assert arrivals[round..][1..] == arrivals[round + 1..];
        replyQueue := replyQueue + arrivals[round];
        if replyQueue != [] {
          var resp := replyQueue[0];
          replyQueue := replyQueue[1..];
          received := received + 1;
          if resp.correlationId != Some(want.correlationId) {
            stash := stash + [resp];
          } else if want.sender.Some? && resp.sender != want.sender {
            stash := stash + [resp];
          } else {
            response := Some(resp.payload);
          }
        }
        round := round + 1;
      }
      PutBack(stash);
    }

    method PutBack(stash: seq<Message>)
      modifies this`replyQueue
      ensures replyQueue == old(replyQueue) + stash
    {
      for i := 0 to |stash|
        invariant replyQueue == old(replyQueue) + stash[..i]
      {
        replyQueue := replyQueue + [stash[i]];
      }
      assert stash[..|stash|] == stash;
    }

    /** Sends a request under a fresh correlation id and waits for its reply. */
    method RpcSendWait(receiver: string, freshId: string, sender: Option<string>, arrivals: Schedule)
      returns (response: Option<string>, ghost outcome: Outcome)
      modifies this
      ensures brokerInQueue == old(brokerInQueue) + [(freshId, receiver)]
      ensures outcome == Wait(old(replyQueue), [], arrivals, Wanted(freshId, sender))
      ensures replyQueue == outcome.queue
      ensures response == if outcome.taken.Some? then Some(outcome.taken.value.payload) else None
    {
      brokerInQueue := brokerInQueue + [(freshId, receiver)];
      response, outcome := WaitForResponse(Wanted(freshId, sender), arrivals);
    }
  }

  // ----- what a wait leaves behind

  /** None carries the id wanted and, where a sender is wanted, comes from it. */
  predicate NoneMatches(ms: seq<Message>, want: Wanted) {
    forall i :: 0 <= i < |ms| ==>
      ms[i].correlationId != Some(want.correlationId) || want.sender !in {None, ms[i].sender}
  }

  /** The queue afterwards is what was not received, then what was set aside, in order. */
  ghost predicate Rotates(o: Outcome, seen: seq<Message>, stash: seq<Message>, want: Wanted) {
    && o.received <= |seen|
    && (o.taken.None? ==>
          && NoneMatches(seen[..o.received], want)
          && o.queue == seen[o.received..] + stash + seen[..o.received])
    && (o.taken.Some? ==>
          && o.received > 0 && o.taken.value == seen[o.received - 1] && Matches(o.taken.value, want)
          && NoneMatches(seen[..o.received - 1], want)
          && o.queue == seen[o.received..] + stash + seen[..o.received - 1])
  }

  ghost predicate EndsRotated(queue: seq<Message>, stash: seq<Message>, arrivals: Schedule, want: Wanted) {
    var o := Wait(queue, stash, arrivals, want);
    o.rounds <= |arrivals| && Rotates(o, Seen(queue, arrivals, o.rounds), stash, want)
  }

  lemma {:induction false} WaitRotatesFrom(queue: seq<Message>, stash: seq<Message>, arrivals: Schedule, want: Wanted)
    ensures EndsRotated(queue, stash, arrivals, want)
    decreases |arrivals|
  {
    hide EndsRotated;
    if arrivals == [] {
      NoRound(queue, stash, want);
    } else {
      var q := queue + arrivals[0];
      if q == [] {
        WaitRotatesFrom([], stash, arrivals[1..], want);
        IdleRound(queue, stash, arrivals, want);
      } else if Matches(q[0], want) {
        LastRound(queue, stash, arrivals, want);
      } else {
        WaitRotatesFrom(q[1..], stash + [q[0]], arrivals[1..], want);
        SkippingRound(queue, stash, arrivals, want);
      }
    }
  }

  lemma NoRound(queue: seq<Message>, stash: seq<Message>, want: Wanted)
    ensures EndsRotated(queue, stash, [], want)
  {
    assert Seen(queue, [], 0) == queue;
  }

  lemma IdleRound(queue: seq<Message>, stash: seq<Message>, arrivals: Schedule, want: Wanted)
    requires arrivals != [] && queue + arrivals[0] == [] && EndsRotated([], stash, arrivals[1..], want)
    ensures EndsRotated(queue, stash, arrivals, want)
  {
    hide Rotates, Seen;
    var rest := Wait([], stash, arrivals[1..], want);
    SeenOneRound(queue, arrivals, [], rest.rounds);
    RotatesIgnoresRounds(rest, Seen([], arrivals[1..], rest.rounds), stash, want);
  }

  lemma LastRound(queue: seq<Message>, stash: seq<Message>, arrivals: Schedule, want: Wanted)
    requires arrivals != [] && queue + arrivals[0] != [] && Matches((queue + arrivals[0])[0], want)
    ensures EndsRotated(queue, stash, arrivals, want)
  {
    hide Rotates, Seen;
    FirstReceived(queue, stash, arrivals, want);
  }

  lemma SkippingRound(queue: seq<Message>, stash: seq<Message>, arrivals: Schedule, want: Wanted)
    requires arrivals != [] && queue + arrivals[0] != [] && !Matches((queue + arrivals[0])[0], want)
    requires var q := queue + arrivals[0]; EndsRotated(q[1..], stash + [q[0]], arrivals[1..], want)
    ensures EndsRotated(queue, stash, arrivals, want)
  {
    hide Rotates, Seen;
    var q := queue + arrivals[0];
    var rest := Wait(q[1..], stash + [q[0]], arrivals[1..], want);
    SeenOneRound(queue, arrivals, [q[0]], rest.rounds);
    RotatesOneMore(rest, q[0], Seen(q[1..], arrivals[1..], rest.rounds), stash, want);
  }

  lemma FirstReceived(queue: seq<Message>, stash: seq<Message>, arrivals: Schedule, want: Wanted)
    requires arrivals != [] && queue + arrivals[0] != [] && Matches((queue + arrivals[0])[0], want)
    ensures var q := queue + arrivals[0];
            Rotates(Outcome(q[1..] + stash, Some(q[0]), 1, 1), Seen(queue, arrivals, 1), stash, want)
  {
    var q := queue + arrivals[0];
    assert arrivals[..1][1..] == [];
    assert Flatten(arrivals[..1]) == arrivals[0] + [];
    assert Seen(queue, arrivals, 1) == q;
    assert q[..0] == [];
  }

  lemma SeenOneRound(queue: seq<Message>, arrivals: Schedule, front: seq<Message>, rounds: nat)
    requires arrivals != [] && rounds <= |arrivals| - 1
    requires |front| <= |queue + arrivals[0]| && (queue + arrivals[0])[..|front|] == front
    ensures Seen(queue, arrivals, rounds + 1) == front + Seen((queue + arrivals[0])[|front|..], arrivals[1..], rounds)
  {
    assert arrivals[..rounds + 1][1..] == arrivals[1..][..rounds];
  }

  lemma RotatesIgnoresRounds(o: Outcome, seen: seq<Message>, stash: seq<Message>, want: Wanted)
    requires Rotates(o, seen, stash, want)
    ensures Rotates(o.(rounds := o.rounds + 1), [] + seen, stash, want)
  {
    assert [] + seen == seen;
  }

  lemma RotatesOneMore(o: Outcome, m: Message, seen: seq<Message>, stash: seq<Message>, want: Wanted)
    requires Rotates(o, seen, stash + [m], want) && !Matches(m, want)
    ensures Rotates(o.(rounds := o.rounds + 1, received := o.received + 1), [m] + seen, stash, want)
  {
    var all, k := [m] + seen, o.received;
    assert all[k + 1..] == seen[k..];
    assert all[..k + 1] == [m] + seen[..k];
    if o.taken.Some? {
      assert all[..k] == [m] + seen[..k - 1];
      assert seen[k..] + (stash + [m]) + seen[..k - 1] == seen[k..] + stash + ([m] + seen[..k - 1]);
    } else {
      assert seen[k..] + (stash + [m]) + seen[..k] == seen[k..] + stash + ([m] + seen[..k]);
    }
  }

  /** On return: the reply is the first match among all messages received, and the queue holds the
      messages not yet received, followed by all skipped ones in their order. On timeout: nothing
      received matched, and every message is still there. */
  lemma WaitRotates(queue: seq<Message>, arrivals: Schedule, want: Wanted)
    ensures var o := Wait(queue, [], arrivals, want);
            && o.rounds <= |arrivals|
            && var seen := Seen(queue, arrivals, o.rounds);
            && o.received <= |seen|
            && (o.taken.None? ==>
                  && NoneMatches(seen[..o.received], want)
                  && o.queue == seen[o.received..] + seen[..o.received])
            && (o.taken.Some? ==>
                  && o.received > 0 && o.taken.value == seen[o.received - 1]
                  && o.taken.value.correlationId == Some(want.correlationId)
                  && want.sender in {None, o.taken.value.sender}
                  && NoneMatches(seen[..o.received - 1], want)
                  && o.queue == seen[o.received..] + seen[..o.received - 1])
  {
    WaitRotatesFrom(queue, [], arrivals, want);
    var o := Wait(queue, [], arrivals, want);
    var seen := Seen(queue, arrivals, o.rounds);
    assert seen[o.received..] + [] == seen[o.received..];
  }

  function Taken(o: Outcome): multiset<Message> {
    if o.taken.Some? then multiset{o.taken.value} else multiset{}
  }

  /** No message is lost or doubled: what was there and what arrived is what is left and the one
      message returned. */
  lemma WaitConserves(queue: seq<Message>, arrivals: Schedule, want: Wanted)
    ensures var o := Wait(queue, [], arrivals, want);
            && o.rounds <= |arrivals|
            && multiset(o.queue) + Taken(o) == multiset(queue) + multiset(Flatten(arrivals[..o.rounds]))
  {
    hide Wait, Flatten, Matches, NoneMatches;
    WaitRotates(queue, arrivals, want);
    var o := Wait(queue, [], arrivals, want);
    var seen := Seen(queue, arrivals, o.rounds);
    assert multiset(seen) == multiset(queue) + multiset(Flatten(arrivals[..o.rounds]));
    if o.taken.Some? {
      Rearranged(seen, o.received - 1, o.received);
      assert seen[o.received - 1..o.received] == [o.taken.value];
    } else {
      Rearranged(seen, o.received, o.received);
    }
  }

  lemma Rearranged(s: seq<Message>, i: nat, j: nat)
    requires i <= j <= |s|
    ensures multiset(s) == multiset(s[j..] + s[..i]) + multiset(s[i..j])
  {
    assert s == s[..i] + s[i..j] + s[j..];
  }

  /** A wait on a fresh correlation id returns nothing that was in the queue before the request. */
  lemma StaleRepliesAreSkipped(queue: seq<Message>, arrivals: Schedule, want: Wanted)
    requires NoneMatches(queue, want)
    ensures var o := Wait(queue, [], arrivals, want);
            o.rounds <= |arrivals| &&
            (o.taken.Some? ==>
               o.received > |queue| && |o.queue| >= |queue| && o.taken.value in Flatten(arrivals[..o.rounds]))
  {
    WaitRotates(queue, arrivals, want);
    var o := Wait(queue, [], arrivals, want);
    if o.taken.Some? {
      var seen, last := Seen(queue, arrivals, o.rounds), o.received - 1;
      assert Matches(seen[last], want);
      assert forall i :: 0 <= i < |queue| ==> seen[i] == queue[i];
    }
  }

  /** With as many rounds as messages up to it, a matching message in the queue is found. */
  lemma {:induction false} MatchIsFound(queue: seq<Message>, stash: seq<Message>, arrivals: Schedule, want: Wanted,
      at: nat)
    requires at < |queue| && Matches(queue[at], want) && NoneMatches(queue[..at], want)
    requires at < |arrivals|
    ensures Wait(queue, stash, arrivals, want).taken == Some(queue[at])
    ensures Wait(queue, stash, arrivals, want).received == at + 1
    decreases at
  {
    var q := queue + arrivals[0];
    if at > 0 {
      assert !Matches(queue[..at][0], want);
      assert q[1..][..at - 1] == queue[..at][1..];
      MatchIsFound(q[1..], stash + [q[0]], arrivals[1..], want, at - 1);
    }
  }
}
