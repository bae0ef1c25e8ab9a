/** The client as an object: one deque, one id counter, loops, and a `finally`
    that puts the deque back together. Its methods are proved to do exactly what
    `GatewayRules` says, so the theorems about runs apply to it. */
module GatewayPeer {
  import opened Basics
  import opened GatewayRules

  class Client {
    var nextId: nat
    var pending: seq<Arrival>
    var inbox: seq<Receipt>
    var writes: seq<bool>
    var history: seq<Arrival>
    var returned: seq<Arrival>
    var declined: seq<Arrival>
    var dropped: seq<Arrival>

    function View(): State
      reads this
    {
      State(nextId, pending, inbox, writes, history, returned, declined, dropped)
    }

    constructor (inbox: seq<Receipt>, writes: seq<bool>)
      ensures View() == State(1, [], inbox, writes, [], [], [], [])
    {
      nextId := 1;
      this.inbox, this.writes := inbox, writes;
      pending, history, returned, declined, dropped := [], [], [], [], [];
    }

    /** `_receive`: the next frame, or nothing when it times out or the reader
        has failed. */
    method Receive() returns (a: Option<Arrival>)
      modifies `inbox, `history
      ensures a.Some? <==> old(inbox) != [] && old(inbox)[0].Incoming?
      ensures a.Some? ==> a.value == GatewayRules.Hand(old(View())) && View() == Received(old(View()))
      ensures a.None? ==> View() == NothingReceived(old(View()))
    {
      if inbox == [] { return None; }
      var next := inbox[0];
      inbox := inbox[1..];
      match next {
        case Incoming(frame) =>
          var arrival := Arrival(|history|, frame);
          history := history + [arrival];
          a := Some(arrival);
        case _ => a := None;
      }
    }

    method Send() returns (ok: bool)
      modifies `writes
      ensures ok <==> old(writes) != [] && old(writes)[0]
      ensures View() == Written(old(View()))
    {
      ok := writes != [] && writes[0];
      writes := if writes == [] then [] else writes[1..];
    }

    /** `_route`: decline the frame or put it on the deque. */
    method Route(a: Arrival) returns (failure: Option<Failure>)
      modifies `writes, `pending, `declined
      ensures match Place(Requesting, old(View()), |old(pending)|, a.frame)
        case Kept => failure == None && View() == old(View()).(pending := old(pending) + [a])
        case Declined => failure == None && View() == Written(old(View())).(declined := old(declined) + [a])
        case Failed(e) => failure == Some(e) && View() == if e.SendFailed? then Written(old(View())) else old(View())
    {
      if ServerRequest(a.frame) {
        if a.frame.verb.value.Array? || a.frame.verb.value.Object? { return Some(TypeMismatch); }
        if !Answerable(a.frame) {
          var ok := Send();
          if !ok { return Some(SendFailed); }
          declined := declined + [a];
          return None;
        }
      }
      if |pending| >= MAX_BACKLOG { return Some(BacklogFull); }
      pending := pending + [a];
      failure := None;
    }

    method Request() returns (reply: Reply)
      modifies this
      ensures Outcome(View(), reply) == GatewayRules.Request(old(View()))
    {
      var id := nextId;
      nextId := nextId + 1;
      var ok := Send();
      if !ok { return Raised(SendFailed); }
      while true
        invariant AwaitReply(View(), id) == GatewayRules.Request(old(View()))
        decreases |inbox|
      {
        var received := Receive();
        if received.None? { return Raised(NoFrame); }
        var a := received.value;
        if Answers(a.frame, id) {
          if a.frame.error.Some? {
            dropped := dropped + [a];
            return Raised(if a.frame.error.value.Object? then RpcError else TypeMismatch);
          }
          if a.frame.result.None? {
            dropped := dropped + [a];
            return Raised(NoResult);
          }
          returned := returned + [a];
          return Ok(a);
        }
        var failure := Route(a);
        if failure.Some? {
          dropped := dropped + [a];
          return Raised(failure.value);
        }
      }
    }

    method Wait(p: Predicate) returns (reply: Reply)
      modifies this
      ensures Outcome(View(), reply) == GatewayRules.Wait(old(View()), p)
    {
      var remaining: seq<Arrival> := [];
      while true
        invariant Scan(View(), remaining, p) == GatewayRules.Wait(old(View()), p)
        decreases |pending| + |inbox|
      {
        var a: Arrival;
        if pending != [] {
          a, pending := pending[0], pending[1..];
        } else {
          var received := Receive();
          if received.None? {
            reply := Raised(NoFrame);
            break;
          }
          a := received.value;
        }
        match p(a.frame) {
          case Match =>
            returned := returned + [a];
            reply := Ok(a);
            break;
          case Raise =>
            dropped := dropped + [a];
            reply := Raised(PredicateRaised);
            break;
          case Pass =>
        }
        if ServerRequest(a.frame) {
          var ok := Send();
          if !ok {
            dropped := dropped + [a];
            reply := Raised(SendFailed);
            break;
          }
          declined := declined + [a];
        } else {
          if |remaining| >= MAX_BACKLOG {
            dropped := dropped + [a];
            reply := Raised(BacklogFull);
            break;
          }
          remaining := remaining + [a];
        }
      }
      pending := remaining + pending;
    }
  }
}
