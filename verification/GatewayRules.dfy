/** The caller's side of the JSON-RPC 2.0 peer client: `request` and `wait`, the
    frames they defer, and the server requests they decline.

    Everything outside the client is data: `inbox` lists what the successive
    receives will yield, `writes` whether the successive writes to the gateway
    will succeed. Every frame received gets an arrival number, and the histories
    `returned`, `declined` and `dropped` record where it went. */
module GatewayRules {
  import opened Basics

  const MAX_BACKLOG: nat := 512

  datatype Json =
    | Null
    | Bool(b: bool)
    | Num(r: real)
    | Str(s: string)
    | Array(size: nat)
    | Object(size: nat)

  datatype Frame = Frame(id: Option<Json>, verb: Option<Json>, error: Option<Json>, result: Option<Json>)

  datatype Arrival = Arrival(n: nat, frame: Frame)

  datatype Receipt = Incoming(frame: Frame) | TimedOut | ReaderFailed

  datatype Failure =
    | NoFrame | SendFailed | BacklogFull | RpcError | NoResult | PredicateRaised | TypeMismatch

  datatype Reply = Ok(arrival: Arrival) | Raised(failure: Failure)

  datatype Verdict = Match | Pass | Raise

  type Predicate = Frame -> Verdict

  datatype State = State(
    nextId: nat,
    pending: seq<Arrival>,
    inbox: seq<Receipt>,
    writes: seq<bool>,
    history: seq<Arrival>,   // every frame received so far, in order
    returned: seq<Arrival>,
    declined: seq<Arrival>,
    dropped: seq<Arrival>)   // in hand when an operation raised

  datatype Outcome = Outcome(state: State, reply: Reply)

  /** Python truth of a decoded JSON value. */
  predicate Truthy(j: Json) {
    match j
    case Null => false
    case Bool(b) => b
    case Num(r) => r != 0.0
    case Str(s) => s != ""
    case Array(n) => n > 0
    case Object(n) => n > 0
  }

  /** Python equality of a decoded JSON value with an integer. */
  predicate EqualsInt(j: Json, n: nat) {
    match j
    case Bool(b) => n == (if b then 1 else 0)
    case Num(r) => r == n as real
    case _ => false
  }

  /** Section 4 of JSON-RPC 2.0: a method and an id make a request. */
  predicate ServerRequest(f: Frame) {
    f.verb.Some? && Truthy(f.verb.value) && f.id.Some? && !f.id.value.Null?
  }

  predicate Answerable(f: Frame) {
    f.verb.Some? && f.verb.value.Str? && f.verb.value.s in {"clarify", "approval", "session/request_permission"}
  }

  /** Section 5 of JSON-RPC 2.0: the response carries the request's id. */
  predicate Answers(f: Frame, id: nat) { f.verb.None? && f.id.Some? && EqualsInt(f.id.value, id) }

  /** Which operation is looking at a frame it has no use for. */
  datatype Mode = Requesting | Waiting

  /** Requests outside the answerable methods are declined during `request`;
      `wait` declines every request it passes over. */
  predicate Declines(mode: Mode, f: Frame) {
    ServerRequest(f) && (mode.Waiting? || !Answerable(f))
  }

  /** `frame["method"] not in {...}` needs a hashable method. */
  predicate Unhashable(mode: Mode, f: Frame) {
    mode.Requesting? && ServerRequest(f) && (f.verb.value.Array? || f.verb.value.Object?)
  }

  datatype Placed = Kept | Declined | Failed(failure: Failure)

  /** What happens to an unwanted frame, given how many are already kept. */
  function Place(mode: Mode, s: State, kept: nat, f: Frame): Placed {
    if Unhashable(mode, f) then Failed(TypeMismatch)
    else if Declines(mode, f) then
      if s.writes != [] && s.writes[0] then Declined else Failed(SendFailed)
    else if kept >= MAX_BACKLOG then Failed(BacklogFull)
    else Kept
  }

  function Written(s: State): State { s.(writes := if s.writes == [] then [] else s.writes[1..]) }

  /** Taking the next frame off the inbox; `Incoming` must be next. */
  function Received(s: State): State
    requires s.inbox != [] && s.inbox[0].Incoming?
  {
    s.(inbox := s.inbox[1..], history := s.history + [Hand(s)])
  }

  function Hand(s: State): Arrival
    requires s.inbox != [] && s.inbox[0].Incoming?
  {
    Arrival(|s.history|, s.inbox[0].frame)
  }

  function NothingReceived(s: State): State { s.(inbox := if s.inbox == [] then [] else s.inbox[1..]) }

  function AwaitReply(s: State, id: nat): Outcome
    decreases |s.inbox|
  {
    if s.inbox == [] || !s.inbox[0].Incoming? then Outcome(NothingReceived(s), Raised(NoFrame)) else
    var a, t := Hand(s), Received(s);
    if Answers(a.frame, id) then
      if a.frame.error.Some? then
        Outcome(t.(dropped := t.dropped + [a]),
                Raised(if a.frame.error.value.Object? then RpcError else TypeMismatch))
      else if a.frame.result.None? then Outcome(t.(dropped := t.dropped + [a]), Raised(NoResult))
      else Outcome(t.(returned := t.returned + [a]), Ok(a))
    else
      match Place(Requesting, t, |t.pending|, a.frame)
      case Kept => AwaitReply(t.(pending := t.pending + [a]), id)
      case Declined => AwaitReply(Written(t).(declined := t.declined + [a]), id)
      case Failed(e) =>
        Outcome((if e.SendFailed? then Written(t) else t).(dropped := t.dropped + [a]), Raised(e))
  }

  function Request(s: State): Outcome {
    var t := Written(s).(nextId := s.nextId + 1);
    if s.writes != [] && s.writes[0] then AwaitReply(t, s.nextId) else Outcome(t, Raised(SendFailed))
  }

  /** The scan of `wait`. `remaining` holds the frames passed over so far; every
      way out puts it back in front of the frames not looked at. */
  function Scan(s: State, remaining: seq<Arrival>, p: Predicate): Outcome
    decreases |s.pending| + |s.inbox|
  {
    if s.pending == [] && (s.inbox == [] || !s.inbox[0].Incoming?) then
      Outcome(NothingReceived(s).(pending := remaining), Raised(NoFrame))
    else
      var a := if s.pending != [] then s.pending[0] else Hand(s);
      var t := if s.pending != [] then s.(pending := s.pending[1..]) else Received(s);
      var back := t.(pending := remaining + t.pending);
      match p(a.frame)
      case Match => Outcome(back.(returned := t.returned + [a]), Ok(a))
      case Raise => Outcome(back.(dropped := t.dropped + [a]), Raised(PredicateRaised))
      case Pass =>
        match Place(Waiting, t, |remaining|, a.frame)
        case Kept => Scan(t, remaining + [a], p)
        case Declined => Scan(Written(t).(declined := t.declined + [a]), remaining, p)
        case Failed(e) =>
          Outcome((if e.SendFailed? then Written(back) else back).(dropped := t.dropped + [a]), Raised(e))
  }

  function Wait(s: State, p: Predicate): Outcome { Scan(s, [], p) }

  // ---- sorting frames by fate ----

  function KeptOf(mode: Mode, xs: seq<Arrival>): seq<Arrival> {
    if xs == [] then [] else (if Declines(mode, xs[0].frame) then [] else [xs[0]]) + KeptOf(mode, xs[1..])
  }

  function DeclinedOf(mode: Mode, xs: seq<Arrival>): seq<Arrival> {
    if xs == [] then [] else (if Declines(mode, xs[0].frame) then [xs[0]] else []) + DeclinedOf(mode, xs[1..])
  }

  lemma {:induction false} SplitOff(mode: Mode, xs: seq<Arrival>, a: Arrival)
    ensures KeptOf(mode, xs + [a]) == KeptOf(mode, xs) + (if Declines(mode, a.frame) then [] else [a])
    ensures DeclinedOf(mode, xs + [a]) == DeclinedOf(mode, xs) + (if Declines(mode, a.frame) then [a] else [])
  {
    if xs == [] {
      assert xs + [a] == [a] && [a][1..] == [];
    } else {
      assert (xs + [a])[1..] == xs[1..] + [a];
      SplitOff(mode, xs[1..], a);
    }
  }

  lemma {:induction false} FatesConserve(mode: Mode, xs: seq<Arrival>)
    ensures multiset(KeptOf(mode, xs)) + multiset(DeclinedOf(mode, xs)) == multiset(xs)
    ensures forall a :: a in KeptOf(mode, xs) ==> a in xs && !Declines(mode, a.frame)
    ensures forall a :: a in DeclinedOf(mode, xs) ==> a in xs && Declines(mode, a.frame)
  {
    if xs != [] {
      FatesConserve(mode, xs[1..]);
      assert xs == [xs[0]] + xs[1..];
    }
  }

  ghost predicate Ordered(xs: seq<Arrival>) { forall i, j :: 0 <= i < j < |xs| ==> xs[i].n < xs[j].n }

  lemma {:induction false} KeptStaysOrdered(mode: Mode, xs: seq<Arrival>)
    requires Ordered(xs)
    ensures Ordered(KeptOf(mode, xs))
  {
    if xs != [] {
      KeptStaysOrdered(mode, xs[1..]);
      FatesConserve(mode, xs[1..]);
      forall a | a in xs[1..] ensures xs[0].n < a.n {}
    }
  }
}
