/** What `request` and `wait` guarantee, for one call and over every sequence of
    calls and failures. */
module GatewayTheorems {
  import opened Basics
  import opened GatewayRules

  /** The frames that arrived between two states. */
  function New(s: State, t: State): seq<Arrival>
    requires |s.history| <= |t.history|
  {
    t.history[|s.history|..]
  }

  /** The operation went through frames in order: `passed` were kept or declined,
      `hand` was returned or was in hand when the operation raised, and `rest` was
      not touched. `kept` are the frames that were already set aside. */
  datatype Course = Course(passed: seq<Arrival>, hand: seq<Arrival>, rest: seq<Arrival>) {
    function All(): seq<Arrival> { passed + hand + rest }
  }

  ghost predicate WentThrough(mode: Mode, s: State, kept: seq<Arrival>, c: Course, o: Outcome) {
    && o.state.nextId == s.nextId
    && o.state.declined == s.declined + DeclinedOf(mode, c.passed)
    && o.state.pending == kept + KeptOf(mode, c.passed) + c.rest
    && |c.hand| <= 1
    && (match o.reply
        case Ok(a) => c.hand == [a] && o.state.returned == s.returned + [a] && o.state.dropped == s.dropped
        case Raised(_) => o.state.returned == s.returned && o.state.dropped == s.dropped + c.hand)
  }

  ghost predicate OnlyGrew(s: State, t: State) {
    && |s.history| <= |t.history|
    && t.history[..|s.history|] == s.history
    && (forall i :: |s.history| <= i < |t.history| ==> t.history[i].n == i)
  }

  lemma NewIsLater(s: State, t: State, a: Arrival)
    requires OnlyGrew(s, t) && a in New(s, t)
    ensures a.n >= |s.history|
  {
    var i :| 0 <= i < |New(s, t)| && New(s, t)[i] == a;
  }

  lemma Assoc<T>(a: seq<T>, b: seq<T>, c: seq<T>)
    ensures (a + b) + c == a + (b + c)
  {}

  lemma FatesOfCons(mode: Mode, a: Arrival, xs: seq<Arrival>)
    ensures KeptOf(mode, [a] + xs) == (if Declines(mode, a.frame) then [] else [a]) + KeptOf(mode, xs)
    ensures DeclinedOf(mode, [a] + xs) == (if Declines(mode, a.frame) then [a] else []) + DeclinedOf(mode, xs)
  {
    assert ([a] + xs)[1..] == xs;
  }

  lemma WentThroughOneMore(mode: Mode, s: State, kept: seq<Arrival>, t: State, kept': seq<Arrival>,
                           a: Arrival, c: Course, o: Outcome)
    requires WentThrough(mode, t, kept', c, o)
    requires t.nextId == s.nextId && t.returned == s.returned && t.dropped == s.dropped
    requires kept' == kept + (if Declines(mode, a.frame) then [] else [a])
    requires t.declined == s.declined + (if Declines(mode, a.frame) then [a] else [])
    ensures WentThrough(mode, s, kept, c.(passed := [a] + c.passed), o)
    ensures c.(passed := [a] + c.passed).All() == [a] + c.All()
  {
    FatesOfCons(mode, a, c.passed);
    var k := if Declines(mode, a.frame) then [] else [a];
    var d := if Declines(mode, a.frame) then [a] else [];
    Assoc(kept, k, KeptOf(mode, c.passed));
    Assoc(s.declined, d, DeclinedOf(mode, c.passed));
    Assoc([a], c.passed, c.hand);
    Assoc([a], c.passed + c.hand, c.rest);
  }

  /** The n-th receive from now brings no frame. */
  ghost predicate NoMore(inbox: seq<Receipt>, n: nat) { n >= |inbox| || !inbox[n].Incoming? }

  /** The d-th write from now fails. */
  ghost predicate WriteFails(writes: seq<bool>, d: nat) { d >= |writes| || !writes[d] }

  // ---- wait ----

  lemma {:induction false} ScanGrows(s: State, remaining: seq<Arrival>, p: Predicate)
    ensures OnlyGrew(s, Scan(s, remaining, p).state)
    decreases |s.pending| + |s.inbox|
  {
    if s.pending != [] || (s.inbox != [] && s.inbox[0].Incoming?) {
      var a := if s.pending != [] then s.pending[0] else Hand(s);
      var t := if s.pending != [] then s.(pending := s.pending[1..]) else Received(s);
      ScanGrows(t, remaining + [a], p);
      ScanGrows(Written(t).(declined := t.declined + [a]), remaining, p);
    }
  }

  /** The course of a scan over the deferred frames and those that arrive. */
  ghost predicate ScanCourse(s: State, remaining: seq<Arrival>, p: Predicate, c: Course) {
    var o := Scan(s, remaining, p);
    && OnlyGrew(s, o.state)
    && WentThrough(Waiting, s, remaining, c, o)
    && c.All() == s.pending + New(s, o.state)
    && (forall a :: a in c.passed ==> p(a.frame).Pass?)
    && (forall a :: a in c.hand ==> (p(a.frame).Match? <==> o.reply.Ok?))
    && (forall a :: a in c.rest ==> a in s.pending)
    && ScanEnds(s, |remaining|, p, c, o)
  }

  /** How a wait ends, by the frame it had in hand: each outcome for its own reason. */
  ghost predicate ScanEnds(s: State, kept: nat, p: Predicate, c: Course, o: Outcome) {
    && OnlyGrew(s, o.state)
    && match o.reply
       case Ok(a) => c.hand == [a] && p(a.frame).Match?
       case Raised(PredicateRaised) => |c.hand| == 1 && p(c.hand[0].frame).Raise?
       case Raised(SendFailed) =>
         && |c.hand| == 1 && p(c.hand[0].frame).Pass? && Declines(Waiting, c.hand[0].frame)
         && WriteFails(s.writes, |DeclinedOf(Waiting, c.passed)|)
       case Raised(BacklogFull) =>
         && |c.hand| == 1 && p(c.hand[0].frame).Pass? && !Declines(Waiting, c.hand[0].frame)
         && kept + |KeptOf(Waiting, c.passed)| >= MAX_BACKLOG
       case Raised(NoFrame) => c.hand == [] && c.rest == [] && NoMore(s.inbox, |New(s, o.state)|)
       case Raised(_) => false
  }

  /** `next` is `s` after the frame `a` was taken and kept or declined. */
  ghost predicate PassedOver(s: State, next: State, a: Arrival) {
    && next.nextId == s.nextId && next.returned == s.returned && next.dropped == s.dropped
    && next.declined == s.declined + (if Declines(Waiting, a.frame) then [a] else [])
    && OnlyGrew(s, next)
    && [a] + next.pending == s.pending + New(s, next)
    && (forall x :: x in next.pending ==> x in s.pending)
    && (if New(s, next) == [] then next.inbox == s.inbox
        else |New(s, next)| == 1 && s.inbox != [] && next.inbox == s.inbox[1..])
    && (if Declines(Waiting, a.frame) then s.writes != [] && s.writes[0] && next.writes == s.writes[1..]
        else next.writes == s.writes)
  }

  lemma ScanEndsOneMore(s: State, kept: nat, p: Predicate, next: State, a: Arrival, c: Course, o: Outcome)
    requires PassedOver(s, next, a)
    requires OnlyGrew(s, o.state) && OnlyGrew(next, o.state)
    requires ScanEnds(next, if Declines(Waiting, a.frame) then kept else kept + 1, p, c, o)
    ensures ScanEnds(s, kept, p, c.(passed := [a] + c.passed), o)
  {
    FatesOfCons(Waiting, a, c.passed);
    assert New(s, o.state) == New(s, next) + New(next, o.state);
    hide Declines, KeptOf, DeclinedOf, OnlyGrew;
  }

  lemma ScanOneMore(s: State, remaining: seq<Arrival>, p: Predicate, next: State, a: Arrival, c: Course)
    requires PassedOver(s, next, a) && p(a.frame).Pass?
    requires var kept' := remaining + (if Declines(Waiting, a.frame) then [] else [a]);
      Scan(s, remaining, p) == Scan(next, kept', p) && ScanCourse(next, kept', p, c)
    requires OnlyGrew(s, Scan(s, remaining, p).state)
    ensures ScanCourse(s, remaining, p, c.(passed := [a] + c.passed))
  {
    var kept' := remaining + (if Declines(Waiting, a.frame) then [] else [a]);
    var o := Scan(s, remaining, p);
    WentThroughOneMore(Waiting, s, remaining, next, kept', a, c, o);
    Assoc([a], next.pending, New(next, o.state));
    assert New(s, o.state) == New(s, next) + New(next, o.state);
    Assoc(s.pending, New(s, next), New(next, o.state));
    ScanEndsOneMore(s, |remaining|, p, next, a, c, o);
    hide ScanEnds, WentThrough, OnlyGrew;
  }

  /** There is a frame, and `wait` passes it over. */
  ghost predicate ScanGoesOn(s: State, kept: nat, p: Predicate) {
    && (s.pending != [] || (s.inbox != [] && s.inbox[0].Incoming?))
    && p(NextFrame(s).frame).Pass? && !Place(Waiting, Taken(s), kept, NextFrame(s).frame).Failed?
  }

  function NextFrame(s: State): Arrival
    requires s.pending != [] || (s.inbox != [] && s.inbox[0].Incoming?)
  {
    if s.pending != [] then s.pending[0] else Hand(s)
  }

  function Taken(s: State): State
    requires s.pending != [] || (s.inbox != [] && s.inbox[0].Incoming?)
  {
    if s.pending != [] then s.(pending := s.pending[1..]) else Received(s)
  }

  lemma PassingOver(s: State, remaining: seq<Arrival>, p: Predicate) returns (next: State, a: Arrival)
    requires ScanGoesOn(s, |remaining|, p)
    ensures PassedOver(s, next, a) && p(a.frame).Pass?
    ensures Scan(s, remaining, p) == Scan(next, remaining + (if Declines(Waiting, a.frame) then [] else [a]), p)
    ensures |next.pending| + |next.inbox| < |s.pending| + |s.inbox|
  {
    hide ServerRequest, Answerable;
    a := NextFrame(s);
    var t := Taken(s);
    next := if Declines(Waiting, a.frame) then Written(t).(declined := t.declined + [a]) else t;
    assert remaining + [] == remaining;
  }

  /** The course of a wait that ends at once. */
  lemma ScanStops(s: State, remaining: seq<Arrival>, p: Predicate) returns (c: Course)
    requires !ScanGoesOn(s, |remaining|, p) && OnlyGrew(s, Scan(s, remaining, p).state)
    ensures ScanCourse(s, remaining, p, c)
  {
    hide ServerRequest, Answerable;
    assert remaining + [] == remaining;
    if s.pending == [] && (s.inbox == [] || !s.inbox[0].Incoming?) {
      c := Course([], [], []);
    } else {
      c := Course([], [NextFrame(s)], Taken(s).pending);
    }
  }

  lemma {:induction false} ScanExplained(s: State, remaining: seq<Arrival>, p: Predicate) returns (c: Course)
    ensures ScanCourse(s, remaining, p, c)
    decreases |s.pending| + |s.inbox|
  {
    ScanGrows(s, remaining, p);
    if ScanGoesOn(s, |remaining|, p) {
      var next, a := PassingOver(s, remaining, p);
      var kept' := remaining + (if Declines(Waiting, a.frame) then [] else [a]);
      var c' := ScanExplained(next, kept', p);
      ScanOneMore(s, remaining, p, next, a, c');
      c := c'.(passed := [a] + c'.passed);
    } else {
      c := ScanStops(s, remaining, p);
    }
  }

  lemma {:induction false} ScanBound(s: State, remaining: seq<Arrival>, p: Predicate)
    requires |remaining| + |s.pending| <= MAX_BACKLOG
    ensures var o := Scan(s, remaining, p);
      && |o.state.pending| <= MAX_BACKLOG
      && (o.reply == Raised(BacklogFull) ==>
            && |o.state.pending| == MAX_BACKLOG
            && |s.history| < |o.state.history|
            && o.state.dropped == s.dropped + [o.state.history[|o.state.history| - 1]])
    decreases |s.pending| + |s.inbox|
  {
    if s.pending != [] || (s.inbox != [] && s.inbox[0].Incoming?) {
      var a := if s.pending != [] then s.pending[0] else Hand(s);
      var t := if s.pending != [] then s.(pending := s.pending[1..]) else Received(s);
      var place := Place(Waiting, t, |remaining|, a.frame);
      if p(a.frame).Pass? && place.Kept? {
        ScanGrows(t, remaining + [a], p);
        ScanBound(t, remaining + [a], p);
      } else if p(a.frame).Pass? && place.Declined? {
        ScanGrows(Written(t).(declined := t.declined + [a]), remaining, p);
        ScanBound(Written(t).(declined := t.declined + [a]), remaining, p);
      }
    }
  }

  // ---- request ----

  /** A frame has arrived that `request` sets aside, deferring or declining it. */
  ghost predicate SetsAside(s: State, id: nat) {
    && s.inbox != [] && s.inbox[0].Incoming?
    && !Answers(Hand(s).frame, id)
    && !Place(Requesting, Received(s), |s.pending|, Hand(s).frame).Failed?
  }

  /** `next` is `s` after the frame `a` arrived and was set aside. */
  ghost predicate SetAside(s: State, next: State, a: Arrival) {
    && next.nextId == s.nextId && next.returned == s.returned && next.dropped == s.dropped
    && next.declined == s.declined + (if Declines(Requesting, a.frame) then [a] else [])
    && next.pending == s.pending + (if Declines(Requesting, a.frame) then [] else [a])
    && s.inbox != [] && s.inbox[0].Incoming? && a == Hand(s)
    && next.history == s.history + [a] && next.inbox == s.inbox[1..]
    && (if Declines(Requesting, a.frame) then s.writes != [] && s.writes[0] && next.writes == s.writes[1..]
        else next.writes == s.writes)
    && (|s.pending| <= MAX_BACKLOG ==> |next.pending| <= MAX_BACKLOG)
  }

  lemma SettingAside(s: State, id: nat) returns (next: State, a: Arrival)
    requires SetsAside(s, id)
    ensures SetAside(s, next, a) && !Answers(a.frame, id)
    ensures AwaitReply(s, id) == AwaitReply(next, id)
  {
    hide Answers, ServerRequest, Answerable, Unhashable;
    a := Hand(s);
    var t := Received(s);
    next := if Declines(Requesting, a.frame) then Written(t).(declined := t.declined + [a])
      else t.(pending := t.pending + [a]);
  }

  lemma OnlyGrewOneMore(s: State, next: State, a: Arrival, t: State)
    requires SetAside(s, next, a) && OnlyGrew(next, t)
    ensures OnlyGrew(s, t) && New(s, t) == [a] + New(next, t)
  {
    hide Declines;
    assert t.history[..|s.history|] == t.history[..|next.history|][..|s.history|];
    assert t.history[|s.history|] == t.history[..|next.history|][|s.history|];
  }

  lemma {:induction false} AwaitReplyGrows(s: State, id: nat)
    ensures OnlyGrew(s, AwaitReply(s, id).state)
    ensures |s.pending| <= MAX_BACKLOG ==> |AwaitReply(s, id).state.pending| <= MAX_BACKLOG
    decreases |s.inbox|
  {
    if SetsAside(s, id) {
      var next, a := SettingAside(s, id);
      AwaitReplyGrows(next, id);
      OnlyGrewOneMore(s, next, a, AwaitReply(s, id).state);
    }
  }

  /** The course of a request over the frames that arrive while it waits. */
  ghost predicate ReplyCourse(s: State, id: nat, c: Course) {
    var o := AwaitReply(s, id);
    && OnlyGrew(s, o.state)
    && WentThrough(Requesting, s, s.pending, c, o)
    && c.All() == New(s, o.state)
    && c.rest == []
    && (forall a :: a in c.passed ==> !Answers(a.frame, id))
    && ReplyVerdict(s, id, c, o)
  }

  /** How the wait for a reply ends, by the last frame taken: each outcome for its own
      reason. */
  ghost predicate ReplyVerdict(s: State, id: nat, c: Course, o: Outcome) {
    && OnlyGrew(s, o.state)
    && (o.reply != Raised(NoFrame) ==> |c.hand| == 1)
    && match o.reply
       case Ok(a) => Answers(a.frame, id) && a.frame.result.Some? && a.frame.error.None? && c.hand == [a]
       case Raised(RpcError) =>
         Answers(c.hand[0].frame, id) && c.hand[0].frame.error.Some? && c.hand[0].frame.error.value.Object?
       case Raised(NoResult) =>
         Answers(c.hand[0].frame, id) && c.hand[0].frame.error.None? && c.hand[0].frame.result.None?
       case Raised(TypeMismatch) =>
         if Answers(c.hand[0].frame, id) then c.hand[0].frame.error.Some? && !c.hand[0].frame.error.value.Object?
         else Unhashable(Requesting, c.hand[0].frame)
       case Raised(SendFailed) =>
         && !Answers(c.hand[0].frame, id) && Declines(Requesting, c.hand[0].frame)
         && WriteFails(s.writes, |DeclinedOf(Requesting, c.passed)|)
       case Raised(BacklogFull) =>
         && !Answers(c.hand[0].frame, id) && !Declines(Requesting, c.hand[0].frame)
         && |s.pending| + |KeptOf(Requesting, c.passed)| >= MAX_BACKLOG
       case Raised(NoFrame) => c.hand == [] && NoMore(s.inbox, |New(s, o.state)|)
       case Raised(PredicateRaised) => false
  }

  lemma VerdictOneMore(s: State, next: State, a: Arrival, id: nat, c: Course, o: Outcome)
    requires SetAside(s, next, a) && OnlyGrew(s, o.state) && OnlyGrew(next, o.state)
    requires New(s, o.state) == [a] + New(next, o.state)
    requires ReplyVerdict(next, id, c, o)
    ensures ReplyVerdict(s, id, c.(passed := [a] + c.passed), o)
  {
    FatesOfCons(Requesting, a, c.passed);
    hide Declines, KeptOf, DeclinedOf, OnlyGrew, Answers, Unhashable;
  }

  lemma {:induction false} AwaitReplyExplained(s: State, id: nat) returns (c: Course)
    ensures ReplyCourse(s, id, c)
    decreases |s.inbox|
  {
    AwaitReplyGrows(s, id);
    if SetsAside(s, id) {
      var next, a := SettingAside(s, id);
      var c' := AwaitReplyExplained(next, id);
      c := ReplyOneMore(s, next, a, id, c');
    } else {
      c := ReplyEnds(s, id);
    }
  }

  lemma ReplyOneMore(s: State, next: State, a: Arrival, id: nat, c': Course) returns (c: Course)
    requires SetAside(s, next, a) && !Answers(a.frame, id)
    requires AwaitReply(s, id) == AwaitReply(next, id) && ReplyCourse(next, id, c')
    ensures ReplyCourse(s, id, c)
  {
    hide AwaitReply, Answers, Declines;
    var o := AwaitReply(s, id);
    WentThroughOneMore(Requesting, s, s.pending, next, next.pending, a, c', o);
    OnlyGrewOneMore(s, next, a, o.state);
    VerdictOneMore(s, next, a, id, c', o);
    hide WentThrough, OnlyGrew, SetAside, ReplyVerdict;
    c := c'.(passed := [a] + c'.passed);
  }

  /** The course of a request that ends at once. */
  lemma ReplyEnds(s: State, id: nat) returns (c: Course)
    requires !SetsAside(s, id) && OnlyGrew(s, AwaitReply(s, id).state)
    ensures ReplyCourse(s, id, c)
  {
    hide Answers, ServerRequest, Answerable, Unhashable, OnlyGrew;
    c := Course([], if s.inbox == [] || !s.inbox[0].Incoming? then [] else [Hand(s)], []);
  }

  /** What a request went through after it was sent, and how that ended. */
  ghost predicate RequestCourse(s: State, c: Course) {
    var o := Request(s);
    && OnlyGrew(s, o.state) && o.state.nextId == s.nextId + 1
    && if WriteFails(s.writes, 0) then o.reply == Raised(SendFailed) && New(s, o.state) == [] && c.All() == []
       else ReplyCourse(Sent(s), s.nextId, c) && c.All() == New(s, o.state)
  }

  /** A request fails to send exactly if its first write fails; otherwise it goes
      through the frames that arrive up to the one that decides it, and every outcome
      has the reason it should. */
  lemma RequestExplained(s: State) returns (c: Course)
    ensures RequestCourse(s, c)
  {
    if WriteFails(s.writes, 0) {
      c := Course([], [], []);
    } else {
      c := AwaitReplyExplained(Sent(s), s.nextId);
      assert New(Sent(s), Request(s).state) == New(s, Request(s).state);
      hide AwaitReply, ReplyVerdict, WentThrough;
    }
  }

  /** The frame is a proper reply to the request with this id. */
  predicate ProperReply(f: Frame, id: nat) { Answers(f, id) && f.result.Some? && f.error.None? }

  /** A failing request has seen no proper reply to it. */
  lemma FailedRequestSawNoReply(s: State)
    requires Request(s).reply.Raised?
    ensures OnlyGrew(s, Request(s).state)
    ensures forall a :: a in New(s, Request(s).state) ==> !ProperReply(a.frame, s.nextId)
  {
    var c := RequestExplained(s);
    forall a | a in New(s, Request(s).state) ensures !ProperReply(a.frame, s.nextId) {
      assert a in c.All();
    }
  }

  /** An ordinary reply that is the next frame is returned: a method-less frame whose
      id is the number sent. */
  lemma OrdinaryReplyIsReturned(s: State, result: Json)
    requires s.writes != [] && s.writes[0]
    requires s.inbox != [] && s.inbox[0] == Incoming(Frame(Some(Num(s.nextId as real)), None, None, Some(result)))
    ensures Request(s).reply == Ok(Arrival(|s.history|, s.inbox[0].frame))
  {}

  /** A request of another name from the server is declined by `request`; one for an
      approval, and a notification, are deferred. */
  lemma OrdinaryFrames(id: Json, verb: string)
    requires !id.Null? && verb != ""
    ensures var request := Frame(Some(id), Some(Str(verb)), None, None);
      var notice := Frame(None, Some(Str(verb)), None, None);
      && (Declines(Requesting, request) <==> verb !in ["clarify", "approval", "session/request_permission"])
      && Declines(Waiting, request) && !Declines(Waiting, notice) && !Declines(Requesting, notice)
  {}

  function Sent(s: State): State { Written(s).(nextId := s.nextId + 1) }

  /** `wait` returns the first matching frame in arrival order, whether it was
      deferred earlier or arrives now. The frames before it stay deferred in
      order, except for the server requests among them, which are declined. */
  lemma WaitReturnsFirstMatch(s: State, p: Predicate)
    requires Wait(s, p).reply.Ok?
    ensures var t := Wait(s, p).state;
      && OnlyGrew(s, t)
      && exists before: seq<Arrival>, behind: seq<Arrival> ::
           && s.pending + New(s, t) == before + [Wait(s, p).reply.arrival] + behind
           && p(Wait(s, p).reply.arrival.frame).Match? && (forall a :: a in before ==> p(a.frame).Pass?)
           && t.pending == KeptOf(Waiting, before) + behind
           && t.declined == s.declined + DeclinedOf(Waiting, before)
  {
    var c := ScanExplained(s, [], p);
    assert [] + KeptOf(Waiting, c.passed) == KeptOf(Waiting, c.passed);
    assert Wait(s, p).reply.arrival in c.hand;
  }

  /** What a wait went through and how that ended: a match, or one of the failures for
      its own reason. It gives up for want of a frame only after it has passed over
      every frame deferred or arrived. */
  lemma WaitExplained(s: State, p: Predicate) returns (c: Course)
    ensures ScanCourse(s, [], p, c) && Wait(s, p) == Scan(s, [], p)
  {
    c := ScanExplained(s, [], p);
  }

  /** A failing `wait` has seen no match: a frame that would end it is never
      passed over. It puts back, in order, everything but the server requests it
      declined and the one frame in hand, if there was one. */
  lemma FailedWaitSawNoMatch(s: State, p: Predicate)
    requires Wait(s, p).reply.Raised?
    requires forall x :: x in s.pending ==> x.n < |s.history|
    ensures var t := Wait(s, p).state;
      && OnlyGrew(s, t) && (forall a :: a in New(s, t) ==> !p(a.frame).Match?)
      && exists before: seq<Arrival>, hand: seq<Arrival>, behind: seq<Arrival> ::
           && s.pending + New(s, t) == before + hand + behind && |hand| <= 1
           && (forall a :: a in before ==> p(a.frame).Pass?) && (forall a :: a in hand ==> !p(a.frame).Match?)
           && t.pending == KeptOf(Waiting, before) + behind
           && t.declined == s.declined + DeclinedOf(Waiting, before)
           && t.dropped == s.dropped + hand && t.returned == s.returned
  {
    var t := Wait(s, p).state;
    var c := ScanExplained(s, [], p);
    assert [] + KeptOf(Waiting, c.passed) == KeptOf(Waiting, c.passed);
    forall a | a in New(s, t) ensures !p(a.frame).Match? {
      NewIsLater(s, t, a);
      assert a in c.All();
    }
    assert s.pending + New(s, t) == c.passed + c.hand + c.rest;
  }

  /** A reply is only ever matched to the request that is waiting for it: it
      arrived during the call, it carries that call's id, and no other call has
      that id. */
  lemma RequestReturnsOwnReply(s: State)
    requires Request(s).reply.Ok?
    ensures var o := Request(s);
      && o.state.nextId == s.nextId + 1
      && OnlyGrew(s, o.state)
      && o.reply.arrival in New(s, o.state)
      && Answers(o.reply.arrival.frame, s.nextId) && o.reply.arrival.frame.result.Some?
  {
    var c := AwaitReplyExplained(Sent(s), s.nextId);
    assert Request(s).reply.arrival in c.All();
  }

  /** A server request outside the answerable methods that arrives during
      `request` is declined, unless it is the frame in hand when the call raises.
      It is never deferred. */
  lemma ForeignRequestIsDeclined(s: State, a: Arrival)
    requires OnlyGrew(s, Request(s).state)
    requires a in New(s, Request(s).state) && ServerRequest(a.frame) && !Answerable(a.frame)
    requires forall x :: x in s.pending ==> x.n < |s.history|
    ensures var o := Request(s);
      && a !in o.state.pending
      && (a in o.state.declined || (o.reply.Raised? && o.state.dropped == s.dropped + [a]))
  {
    var o := Request(s);
    NewIsLater(s, o.state, a);
    assert Declines(Requesting, a.frame);
    if s.writes != [] && s.writes[0] {
      assert New(Sent(s), o.state) == New(s, o.state);
      var c := AwaitReplyExplained(Sent(s), s.nextId);
      assert c.hand == [a] && o.reply.Ok? ==> Answers(a.frame, s.nextId) && a.frame.verb.None?;
      hide Request, AwaitReply, ServerRequest, Answerable, Answers, Declines, OnlyGrew;
      FatesConserve(Requesting, c.passed);
      if a in c.passed { DeclinedIsNoted(Requesting, c.passed, a); }
    }
  }

  lemma {:induction false} DeclinedIsNoted(mode: Mode, xs: seq<Arrival>, a: Arrival)
    requires a in xs && Declines(mode, a.frame)
    ensures a in DeclinedOf(mode, xs)
  {
    if xs[0] != a { DeclinedIsNoted(mode, xs[1..], a); }
  }

  // ---- whole runs ----

  datatype Call = CallRequest | CallWait(p: Predicate)

  function Perform(s: State, call: Call): Outcome {
    match call case CallRequest => Request(s) case CallWait(p) => Wait(s, p)
  }

  /** The state after a list of calls, and how many of them raised. */
  function Run(s: State, calls: seq<Call>): (State, nat)
    decreases |calls|
  {
    if calls == [] then (s, 0) else
    var o := Perform(s, calls[0]);
    var (t, raised) := Run(o.state, calls[1..]);
    (t, raised + if o.reply.Raised? then 1 else 0)
  }

  ghost predicate Conserved(s: State) {
    multiset(s.pending) + multiset(s.returned) + multiset(s.declined) + multiset(s.dropped) == multiset(s.history)
  }

  ghost predicate Inv(s: State) {
    && (forall i :: 0 <= i < |s.history| ==> s.history[i].n == i)
    && Conserved(s)
    && Ordered(s.pending)
    && |s.pending| <= MAX_BACKLOG
    && (forall a :: a in s.pending ==> ServerRequest(a.frame) ==> Answerable(a.frame))
    && (forall a :: a in s.declined ==> ServerRequest(a.frame))
  }

  lemma PendingIsFromHistory(s: State)
    requires Inv(s)
    ensures forall a :: a in s.pending ==> a in s.history && a.n < |s.history|
  {
    forall a | a in s.pending ensures a in s.history {
      assert a in multiset(s.pending);
      assert a in multiset(s.history);
    }
  }

  lemma OrderedJoin(a: seq<Arrival>, b: seq<Arrival>)
    ensures Ordered(a + b) <==> Ordered(a) && Ordered(b) && forall x, y :: x in a && y in b ==> x.n < y.n
  {
    if Ordered(a + b) {
      forall i, j | 0 <= i < j < |a| ensures a[i].n < a[j].n { assert (a + b)[i].n < (a + b)[j].n; }
      forall i, j | 0 <= i < j < |b| ensures b[i].n < b[j].n { assert (a + b)[|a| + i].n < (a + b)[|a| + j].n; }
      forall x, y | x in a && y in b ensures x.n < y.n {
        var i :| 0 <= i < |a| && a[i] == x;
        var j :| 0 <= j < |b| && b[j] == y;
        assert (a + b)[i].n < (a + b)[|a| + j].n;
      }
    }
  }

  lemma OrderedParts(mode: Mode, kept: seq<Arrival>, c: Course)
    requires Ordered(kept + c.All())
    ensures Ordered(kept + KeptOf(mode, c.passed) + c.rest)
  {
    OrderedJoin(kept, c.All());
    OrderedJoin(c.passed + c.hand, c.rest);
    OrderedJoin(c.passed, c.hand);
    KeptStaysOrdered(mode, c.passed);
    FatesConserve(mode, c.passed);
    OrderedJoin(kept, KeptOf(mode, c.passed));
    OrderedJoin(kept + KeptOf(mode, c.passed), c.rest);
  }

  lemma HistoryStaysOrdered(s: State, t: State)
    requires Inv(s) && OnlyGrew(s, t)
    ensures Ordered(s.pending + New(s, t))
  {
    PendingIsFromHistory(s);
    forall y | y in New(s, t) ensures y.n >= |s.history| { NewIsLater(s, t, y); }
    OrderedJoin(s.pending, New(s, t));
  }

  lemma Rebalance(pending: multiset<Arrival>, others: multiset<Arrival>, declined: multiset<Arrival>,
                  history: multiset<Arrival>, arrived: multiset<Arrival>, aside: multiset<Arrival>,
                  k: multiset<Arrival>, d: multiset<Arrival>, hand: multiset<Arrival>, rest: multiset<Arrival>)
    requires pending + others + declined == history
    requires aside + (k + d) + hand + rest == pending + arrived
    ensures (aside + k + rest) + (others + hand) + (declined + d) == history + arrived
  {
    calc {
      (aside + k + rest) + (others + hand) + (declined + d);
      (aside + (k + d) + hand + rest) + others + declined;
      (pending + arrived) + others + declined;
      history + arrived;
    }
  }

  lemma GoingThroughConserves(mode: Mode, s: State, kept: seq<Arrival>, c: Course, o: Outcome)
    requires Conserved(s) && OnlyGrew(s, o.state)
    requires kept + c.All() == s.pending + New(s, o.state)
    requires WentThrough(mode, s, kept, c, o)
    ensures Conserved(o.state)
  {
    var t := o.state;
    var k, d := KeptOf(mode, c.passed), DeclinedOf(mode, c.passed);
    FatesConserve(mode, c.passed);
    Assoc(kept, c.passed + c.hand, c.rest);
    Assoc(kept, c.passed, c.hand);
    assert multiset(kept + c.passed + c.hand + c.rest) == multiset(s.pending + New(s, t));
    assert t.history == s.history + New(s, t);
    assert multiset(t.returned) + multiset(t.dropped)
        == multiset(s.returned) + multiset(s.dropped) + multiset(c.hand);
    Rebalance(multiset(s.pending), multiset(s.returned) + multiset(s.dropped), multiset(s.declined),
              multiset(s.history), multiset(New(s, t)), multiset(kept),
              multiset(k), multiset(d), multiset(c.hand), multiset(c.rest));
    assert multiset(t.pending) + (multiset(t.returned) + multiset(t.dropped)) + multiset(t.declined)
        == multiset(t.history);
  }

  /** The common part of the two operations: going through frames conserves them
      and keeps them in order. */
  lemma GoingThroughKeepsInv(mode: Mode, s: State, kept: seq<Arrival>, c: Course, o: Outcome)
    requires Inv(s) && OnlyGrew(s, o.state)
    requires kept + c.All() == s.pending + New(s, o.state)
    requires WentThrough(mode, s, kept, c, o)
    requires |o.state.pending| <= MAX_BACKLOG
    requires forall a :: a in kept || a in c.rest ==> a in s.pending
    ensures Inv(o.state)
    ensures |o.state.dropped| <= |s.dropped| + (if o.reply.Raised? then 1 else 0)
  {
    GoingThroughConserves(mode, s, kept, c, o);
    HistoryStaysOrdered(s, o.state);
    OrderedParts(mode, kept, c);
    FatesConserve(mode, c.passed);
  }

  lemma PerformKeepsInv(s: State, call: Call)
    requires Inv(s)
    ensures var o := Perform(s, call);
      Inv(o.state) && |o.state.dropped| <= |s.dropped| + (if o.reply.Raised? then 1 else 0)
  {
    var o := Perform(s, call);
    match call {
      case CallRequest =>
        if s.writes != [] && s.writes[0] {
          var c := AwaitReplyExplained(Sent(s), s.nextId);
          AwaitReplyGrows(Sent(s), s.nextId);
          GoingThroughKeepsInv(Requesting, Sent(s), s.pending, c, o);
        }
      case CallWait(p) =>
        var c := ScanExplained(s, [], p);
        ScanBound(s, [], p);
        GoingThroughKeepsInv(Waiting, s, [], c, o);
    }
  }

  function Start(inbox: seq<Receipt>, writes: seq<bool>): State { State(1, [], inbox, writes, [], [], [], []) }

  /** Over every sequence of calls, with every inbox and every pattern of write
      failures, no frame is lost or duplicated, deferred frames keep their arrival
      order and their bound, and a frame is dropped only by a call that raises, at
      most one per call. */
  lemma {:induction false} RunConserves(s: State, calls: seq<Call>)
    requires Inv(s)
    ensures Inv(Run(s, calls).0)
    ensures |Run(s, calls).0.dropped| <= |s.dropped| + Run(s, calls).1
    decreases |calls|
  {
    if calls != [] {
      PerformKeepsInv(s, calls[0]);
      RunConserves(Perform(s, calls[0]).state, calls[1..]);
    }
  }

  ghost predicate ExactlyOne(a: bool, b: bool, c: bool, d: bool) {
    (a || b || c || d) && !(a && b) && !(a && c) && !(a && d) && !(b && c) && !(b && d) && !(c && d)
  }

  lemma NumberedOnce(s: State, a: Arrival)
    requires Inv(s) && a in s.history
    ensures multiset(s.history)[a] == 1
  {
    var h := s.history;
    assert h == h[..a.n] + [h[a.n]] + h[a.n + 1..];
    assert a !in h[..a.n] && a !in h[a.n + 1..];
  }

  /** Every frame ever received is in exactly one place, once: deferred, returned,
      declined, or dropped. In particular none is both declined and kept, and none
      is declined twice. */
  lemma EveryFrameHasOnePlace(inbox: seq<Receipt>, writes: seq<bool>, calls: seq<Call>, a: Arrival)
    requires a in Run(Start(inbox, writes), calls).0.history
    ensures var s := Run(Start(inbox, writes), calls).0;
      ExactlyOne(a in s.pending, a in s.returned, a in s.declined, a in s.dropped)
      && multiset(s.pending)[a] + multiset(s.returned)[a] + multiset(s.declined)[a] + multiset(s.dropped)[a] == 1
  {
    RunConserves(Start(inbox, writes), calls);
    NumberedOnce(Run(Start(inbox, writes), calls).0, a);
    var s := Run(Start(inbox, writes), calls).0;
    assert (multiset(s.pending) + multiset(s.returned) + multiset(s.declined) + multiset(s.dropped))[a] == 1;
  }

  /** The backlog overflows in `wait` only on a frame that arrived during that
      `wait`, and even then all 512 kept frames survive the `finally`. */
  lemma WaitOverflowIsOnlyNew(s: State, p: Predicate)
    requires Inv(s) && Wait(s, p).reply == Raised(BacklogFull)
    ensures var t := Wait(s, p).state;
      && |t.pending| == 512
      && OnlyGrew(s, t) && New(s, t) != []
      && t.dropped == s.dropped + [t.history[|t.history| - 1]]
  {
    ScanGrows(s, [], p);
    ScanBound(s, [], p);
  }
}
