/** How the extension host answers requests: activation and caching of runtimes,
    dispatch, and the response to each line. */
module HostProtocol {
  import opened Basics
  import opened HostRuntime
  import opened HostHistory

  type Host = map<string, Runtime>

  datatype Method =
    | InvokeAction(name: string)
    | InvokeTool(name: string)
    | DispatchEvent(kind: Option<string>)   // None: the request has no event
    | Unsupported

  datatype Request = Request(
    requestId: Option<int>,   // None: absent from the frame
    call: Method,
    extension: string,
    storage: Option<map<string, Value>>,
    threads: Option<seq<string>>,
    automations: Option<seq<string>>)

  datatype Parsed = NotJson | NullFrame | Parsed(request: Request)

  type Parser = string -> Parsed

  /** What importing the entrypoint gives. */
  datatype Load = ImportFails(thrown: Thrown) | NotAnExtension | Activates(callback: Callback)

  /** What calling a handler does. The extension is free to look at what its
      callbacks have heard so far in this request, one list of answers for each. */
  type Calls = (Handler, seq<seq<Answer>>) -> Callback

  /** Everything outside the host that happens while one line is handled: the
      activation, if one is needed; what the handlers do; and what serialising the
      reply throws, if it does. */
  datatype Turn = Turn(load: Load, calls: Calls, unserialisable: Option<Thrown>)

  datatype Failure =
    | BadJson | BadFrame | UnsupportedMethod | BadStorage | NoActivate | Missing | NoEvent
    | Message(text: string)
    | MessageValue(value: Value)   // an Error's `message` that is no string, as it is

  datatype Response =
    | Reply(requestId: Option<int>, result: Value, storage: map<string, Value>, views: seq<View>,
            effects: seq<Effect>, handlerErrors: Option<seq<string>>)
    | ErrorReply(requestId: Option<int>, error: Failure)

  /** What a failing step throws: an error of the host's own, or a value that came
      from the extension. */
  datatype Exception = Own(failure: Failure) | Threw(thrown: Thrown)

  datatype Attempt<T> = Good(value: T) | Bad(exception: Exception)

  function DataOf(req: Request): Data
    requires req.storage.Some?
  {
    Data(req.storage.value, [], req.threads, req.automations, [])
  }

  /** The runtime that an activation starts from. */
  function Fresh(req: Request): Runtime
    requires req.storage.Some?
  {
    Runtime(EmptyRegistrations(), DataOf(req))
  }

  /** The runtime a request runs on, and what is cached afterwards. A failed
      activation caches nothing. */
  function RuntimeFor(host: Host, req: Request, load: Load): Attempt<Host> {
    if req.storage.None? then Bad(Own(BadStorage))
    else if req.extension in host then
      Good(host[req.extension := Runtime(host[req.extension].regs, DataOf(req))])
    else
      match load
      case ImportFails(thrown) => Bad(Threw(thrown))
      case NotAnExtension => Bad(Own(NoActivate))
      case Activates(callback) =>
        var activation := Play(Fresh(req), callback, []);
        match activation.settled
        case Throws(thrown) => Bad(Threw(thrown))
        case Returns(_) => Good(host[req.extension := activation.runtime])
  }

  function OrNull(v: Value): Value { if v.Undefined? then Null else v }

  function ReplyFrom(req: Request, rt: Runtime, result: Value, errors: Option<seq<string>>): Response {
    Reply(req.requestId, result, rt.data.storage, rt.data.views, rt.data.effects, errors)
  }

  function Cut(message: string): string {
    if |message| <= MAX_ERROR_CHARS then message else message[..MAX_ERROR_CHARS]
  }

  /** The dispatch loop cannot put this into words, so it ends. */
  predicate Stops(thrown: Thrown) { !thrown.Text? }

  /** What the loop throws then. */
  function Rethrown(thrown: Thrown): Thrown
    requires Stops(thrown)
  {
    match thrown case OddMessage(complaint, _) => Text(complaint) case Unprintable(cause) => cause
  }

  /** `handleLine` cannot put this into words either: the exception leaves it, and
      the process ends. */
  predicate Kills(thrown: Thrown) { thrown.Unprintable? || (thrown.OddMessage? && thrown.written.None?) }

  function Caught(thrown: Thrown): Failure
    requires !Kills(thrown)
  {
    match thrown case Text(message) => Message(message) case OddMessage(_, written) => MessageValue(written.value)
  }

  /** The final `catch`: the error frame, unless the process ends. */
  function Catch(requestId: Option<int>, e: Exception): Option<Response> {
    match e
    case Own(failure) => Some(ErrorReply(requestId, failure))
    case Threw(thrown) => if Kills(thrown) then None else Some(ErrorReply(requestId, Caught(thrown)))
  }

  function Noted(settled: Settled, errors: Attempt<seq<string>>): Attempt<seq<string>> {
    if errors.Good? && settled.Throws? && settled.thrown.Text? then Good([Cut(settled.thrown.message)] + errors.value)
    else errors
  }

  /** Running the handlers of a snapshot, from the k-th on; `heard` is what the
      earlier ones heard. */
  function RunHandlers(rt: Runtime, snapshot: seq<Entry>, k: nat, heard: seq<seq<Answer>>, calls: Calls)
    : (Runtime, Attempt<seq<string>>)
    requires k <= |snapshot|
    decreases |snapshot| - k
  {
    if k == |snapshot| then (rt, Good([])) else
    var p := Play(rt, calls(snapshot[k].handler, heard), []);
    if p.settled.Throws? && Stops(p.settled.thrown) then (p.runtime, Bad(Threw(Rethrown(p.settled.thrown)))) else
    var (rt2, errors) := RunHandlers(p.runtime, snapshot, k + 1, heard + [p.answers], calls);
    (rt2, Noted(p.settled, errors))
  }

  /** Running one callback, or one event's handlers, on a runtime. */
  function RunMethod(rt: Runtime, req: Request, calls: Calls): (Runtime, Attempt<Response>) {
    match req.call
    case InvokeAction(name) => RunCallback(rt, req, Lookup(rt.regs.actions, name), calls)
    case InvokeTool(name) => RunCallback(rt, req, Lookup(rt.regs.tools, name), calls)
    case DispatchEvent(kind) =>
      if kind.None? then (rt, Bad(Own(NoEvent))) else
      var (rt1, errors) := RunHandlers(rt, OfKind(rt.regs.live, kind.value), 0, [], calls);
      (rt1, DispatchReply(req, rt1, errors))
    case Unsupported => (rt, Bad(Own(UnsupportedMethod)))
  }

  function DispatchReply(req: Request, rt: Runtime, errors: Attempt<seq<string>>): Attempt<Response> {
    if errors.Bad? then Bad(errors.exception) else Good(ReplyFrom(req, rt, Null, Some(errors.value)))
  }

  function Lookup(handlers: map<string, Handler>, name: string): Option<Handler> {
    if name in handlers then Some(handlers[name]) else None
  }

  function RunCallback(rt: Runtime, req: Request, handler: Option<Handler>, calls: Calls)
    : (Runtime, Attempt<Response>)
  {
    if handler.None? then (rt, Bad(Own(Missing))) else
    var p := Play(rt, calls(handler.value, []), []);
    match p.settled
    case Throws(thrown) => (p.runtime, Bad(Threw(thrown)))
    case Returns(value) => (p.runtime, Good(ReplyFrom(req, p.runtime, OrNull(value), None)))
  }

  /** One non-blank line: the new cache and the one frame written, or none if the
      process ends. */
  function Handle(host: Host, frame: Parsed, turn: Turn): (Host, Option<Response>) {
    match frame
    case NotJson => (host, Some(ErrorReply(Some(0), BadJson)))
    case NullFrame => (host, Some(ErrorReply(Some(0), BadFrame)))
    case Parsed(req) =>
      if req.call.Unsupported? then (host, Some(ErrorReply(req.requestId, UnsupportedMethod))) else
      match RuntimeFor(host, req, turn.load)
      case Bad(e) => (host, Catch(req.requestId, e))
      case Good(host1) =>
        var (rt, attempt) := RunMethod(host1[req.extension], req, turn.calls);
        (host1[req.extension := rt], Write(req, attempt, turn.unserialisable))
  }

  function Write(req: Request, attempt: Attempt<Response>, unserialisable: Option<Thrown>): Option<Response> {
    match attempt
    case Bad(e) => Catch(req.requestId, e)
    case Good(reply) => if unserialisable.None? then Some(reply) else Catch(req.requestId, Threw(unserialisable.value))
  }

  /** The state of a run: the cache, the frames written, and whether the process is
      still there. */
  datatype Served = Served(host: Host, output: seq<Response>, alive: bool)

  /** A run: one frame per line, in order, while the process lasts. */
  function Serve(lines: seq<string>, parse: Parser, turns: nat -> Turn): Served
    decreases |lines|
  {
    if lines == [] then Served(map[], [], true) else
    var last := |lines| - 1;
    var before := Serve(lines[..last], parse, turns);
    if !before.alive then before else
    var (after, response) := Handle(before.host, parse(lines[last]), turns(last));
    if response.None? then Served(after, before.output, false)
    else Served(after, before.output + [response.value], true)
  }

  // ---- who is called ----

  function Handlers(entries: seq<Entry>): seq<Handler> {
    seq(|entries|, i requires 0 <= i < |entries| => entries[i].handler)
  }

  /** The handlers a request calls, in order: the one registered under its name, or
      those live for its event when it arrives. */
  function Callees(r: Registrations, req: Request): seq<Handler> {
    match req.call
    case InvokeAction(name) => if name in r.actions then [r.actions[name]] else []
    case InvokeTool(name) => if name in r.tools then [r.tools[name]] else []
    case DispatchEvent(kind) => if kind.None? then [] else Handlers(OfKind(r.live, kind.value))
    case Unsupported => []
  }

  /** The call throws a value that ends a dispatch. */
  predicate PlayStops(p: Played) { p.settled.Throws? && Stops(p.settled.thrown) }

  /** Calling these handlers one after the other, up to one that ends the dispatch. */
  function PlayAll(rt: Runtime, handlers: seq<Handler>, heard: seq<seq<Answer>>, calls: Calls): seq<Played>
    decreases |handlers|
  {
    if handlers == [] then [] else
    var p := Play(rt, calls(handlers[0], heard), []);
    [p] + (if PlayStops(p) then [] else PlayAll(p.runtime, handlers[1..], heard + [p.answers], calls))
  }

  /** What the calls of a request came to. */
  function Plays(rt: Runtime, req: Request, calls: Calls): seq<Played> { PlayAll(rt, Callees(rt.regs, req), [], calls) }

  /** The runtime that the k-th call starts from. */
  function Before(rt: Runtime, plays: seq<Played>, k: nat): Runtime
    requires k <= |plays|
  {
    if k == 0 then rt else plays[k - 1].runtime
  }

  function Heard(plays: seq<Played>): seq<seq<Answer>> {
    seq(|plays|, i requires 0 <= i < |plays| => plays[i].answers)
  }

  /** The messages of the calls that threw, in order, each cut. */
  function Errors(plays: seq<Played>): seq<string> {
    if plays == [] then [] else
    (if plays[0].settled.Throws? && plays[0].settled.thrown.Text? then [Cut(plays[0].settled.thrown.message)] else [])
    + Errors(plays[1..])
  }

  /** All operations of the calls, in order. */
  function OpsOf(plays: seq<Played>): seq<Op> { if plays == [] then [] else plays[0].ops + OpsOf(plays[1..]) }

  /** `plays` are one call of each of these handlers, in this order, each on the
      runtime the one before it left, up to the first call that throws a value which
      cannot be put into words. */
  ghost predicate CallsEach(rt: Runtime, handlers: seq<Handler>, heard: seq<seq<Answer>>, calls: Calls,
                            plays: seq<Played>)
  {
    && |plays| <= |handlers|
    && (forall k :: 0 <= k < |plays| ==> CalledAt(rt, handlers, heard, calls, plays, k))
    && EndsAtStop(plays, |handlers|)
  }

  /** The k-th call is of the k-th handler, on the runtime that the one before left. */
  ghost predicate CalledAt(rt: Runtime, handlers: seq<Handler>, heard: seq<seq<Answer>>, calls: Calls,
                           plays: seq<Played>, k: nat)
    requires k < |plays| <= |handlers|
  {
    plays[k] == Play(Before(rt, plays, k), calls(handlers[k], heard + Heard(plays[..k])), [])
  }

  /** Of `n` calls to make these were made, because only the last, if any, ended it. */
  predicate EndsAtStop(plays: seq<Played>, n: nat) {
    && (forall k :: 0 <= k < |plays| - 1 ==> !PlayStops(plays[k]))
    && (|plays| < n ==> plays != [] && PlayStops(plays[|plays| - 1]))
  }

  lemma HeardOneMore(heard: seq<seq<Answer>>, p: Played, rest: seq<Played>, k: nat)
    requires 0 < k <= |rest| + 1
    ensures heard + Heard(([p] + rest)[..k]) == heard + [p.answers] + Heard(rest[..k - 1])
  {
    assert ([p] + rest)[..k] == [p] + rest[..k - 1];
    assert Heard([p] + rest[..k - 1]) == [p.answers] + Heard(rest[..k - 1]);
  }

  lemma CalledAtCons(rt: Runtime, handlers: seq<Handler>, heard: seq<seq<Answer>>, calls: Calls, p: Played,
                     rest: seq<Played>, k: nat)
    requires 0 < k <= |rest| < |handlers|
    requires CalledAt(p.runtime, handlers[1..], heard + [p.answers], calls, rest, k - 1)
    ensures CalledAt(rt, handlers, heard, calls, [p] + rest, k)
  {
    HeardOneMore(heard, p, rest, k);
    hide Play, Heard;
    assert ([p] + rest)[k] == rest[k - 1] && Before(p.runtime, rest, k - 1) == Before(rt, [p] + rest, k);
    assert handlers[1..][k - 1] == handlers[k];
  }

  lemma FirstCall(rt: Runtime, handlers: seq<Handler>, heard: seq<seq<Answer>>, calls: Calls, plays: seq<Played>)
    requires 0 < |plays| <= |handlers| && plays[0] == Play(rt, calls(handlers[0], heard), [])
    ensures CalledAt(rt, handlers, heard, calls, plays, 0)
  {
    assert heard + Heard(plays[..0]) == heard;
  }

  lemma CallsEachCons(rt: Runtime, handlers: seq<Handler>, heard: seq<seq<Answer>>, calls: Calls, p: Played,
                      rest: seq<Played>)
    requires handlers != [] && p == Play(rt, calls(handlers[0], heard), [])
    requires if PlayStops(p) then rest == []
             else CallsEach(p.runtime, handlers[1..], heard + [p.answers], calls, rest)
    ensures CallsEach(rt, handlers, heard, calls, [p] + rest)
  {
    var plays := [p] + rest;
    FirstCall(rt, handlers, heard, calls, plays);
    hide Play, PlayStops, CalledAt;
    forall k | 0 < k < |plays| ensures CalledAt(rt, handlers, heard, calls, plays, k) {
      CalledAtCons(rt, handlers, heard, calls, p, rest, k);
    }
    forall k | 0 <= k < |plays| - 1 ensures !PlayStops(plays[k]) {
      if k > 0 { assert plays[k] == rest[k - 1]; }
    }
  }

  lemma {:induction false} PlayAllCallsEach(rt: Runtime, handlers: seq<Handler>, heard: seq<seq<Answer>>, calls: Calls)
    ensures CallsEach(rt, handlers, heard, calls, PlayAll(rt, handlers, heard, calls))
    decreases |handlers|
  {
    hide Play, CallsEach, PlayStops;
    if handlers == [] {
      NoCalls(rt, heard, calls);
    } else {
      var p := Play(rt, calls(handlers[0], heard), []);
      PlayAllCallsEach(p.runtime, handlers[1..], heard + [p.answers], calls);
      var rest := if PlayStops(p) then [] else PlayAll(p.runtime, handlers[1..], heard + [p.answers], calls);
      CallsEachCons(rt, handlers, heard, calls, p, rest);
    }
  }

  lemma NoCalls(rt: Runtime, heard: seq<seq<Answer>>, calls: Calls)
    ensures CallsEach(rt, [], heard, calls, [])
  {}

  /** Calls one after the other come to all their operations, in order. */
  lemma {:induction false} PlaysPerform(rt: Runtime, handlers: seq<Handler>, heard: seq<seq<Answer>>, calls: Calls)
    ensures var plays := PlayAll(rt, handlers, heard, calls);
      Before(rt, plays, |plays|) == Perform(rt, OpsOf(plays)).0
    decreases |handlers|
  {
    hide Play;
    if handlers != [] {
      var p := Play(rt, calls(handlers[0], heard), []);
      PlayPerforms(rt, calls(handlers[0], heard), []);
      PlaysPerform(p.runtime, handlers[1..], heard + [p.answers], calls);
      var rest := if PlayStops(p) then [] else PlayAll(p.runtime, handlers[1..], heard + [p.answers], calls);
      assert ([p] + rest)[1..] == rest;
      PerformJoins(rt, p.ops, OpsOf(rest));
    }
  }

  /** What the loop comes to: the errors, or what ended it. */
  function LoopOutcome(plays: seq<Played>): Attempt<seq<string>> {
    if plays != [] && PlayStops(plays[|plays| - 1]) then
      Bad(Threw(Rethrown(plays[|plays| - 1].settled.thrown)))
    else Good(Errors(plays))
  }

  lemma LoopOutcomeCons(p: Played, rest: seq<Played>)
    requires !PlayStops(p)
    ensures LoopOutcome([p] + rest) == Noted(p.settled, LoopOutcome(rest))
  {
    assert ([p] + rest)[1..] == rest && [] + Errors(rest) == Errors(rest);
    if rest != [] { assert ([p] + rest)[|rest|] == rest[|rest| - 1]; }
  }

  /** The loop comes to errors exactly if none of its calls ended it. */
  lemma LoopOutcomeExact(plays: seq<Played>, n: nat)
    requires |plays| <= n && EndsAtStop(plays, n)
    ensures match LoopOutcome(plays)
      case Good(errors) => |plays| == n && errors == Errors(plays) && forall p :: p in plays ==> !PlayStops(p)
      case Bad(e) =>
        && plays != [] && PlayStops(plays[|plays| - 1]) && plays[|plays| - 1] in plays
        && e == Threw(Rethrown(plays[|plays| - 1].settled.thrown))
  {
    hide Rethrown, Errors;
  }

  /** The loop over a snapshot calls the handlers of its entries. */
  lemma {:induction false} LoopCallsSnapshot(rt: Runtime, snapshot: seq<Entry>, k: nat, heard: seq<seq<Answer>>,
                                             calls: Calls)
    requires k <= |snapshot|
    ensures var plays := PlayAll(rt, Handlers(snapshot[k..]), heard, calls);
      RunHandlers(rt, snapshot, k, heard, calls) == (Before(rt, plays, |plays|), LoopOutcome(plays))
    decreases |snapshot| - k
  {
    hide Play, Noted;
    if k < |snapshot| {
      var p := Play(rt, calls(snapshot[k].handler, heard), []);
      assert Handlers(snapshot[k..])[0] == snapshot[k].handler;
      assert Handlers(snapshot[k..])[1..] == Handlers(snapshot[k + 1..]);
      var rest := if PlayStops(p) then []
        else PlayAll(p.runtime, Handlers(snapshot[k + 1..]), heard + [p.answers], calls);
      var plays := [p] + rest;
      assert PlayAll(rt, Handlers(snapshot[k..]), heard, calls) == plays;
      assert plays[0] == p && plays[1..] == rest && Before(rt, plays, |plays|) == Before(p.runtime, rest, |rest|);
      if !PlayStops(p) {
        LoopCallsSnapshot(p.runtime, snapshot, k + 1, heard + [p.answers], calls);
        LoopOutcomeCons(p, rest);
      }
      hide PlayAll, Handlers, Before;
    }
  }

  /** A dispatch calls the handlers live for the event's type when it began, in
      registration order and once each, whatever they register or dispose meanwhile.
      It calls all of them and replies exactly if none throws a value that cannot be
      put into words; then its errors are those of the calls that threw. Otherwise
      the first such call is the last one made, and what converting its value threw
      is what the dispatch throws. */
  lemma DispatchRunsSnapshot(rt: Runtime, req: Request, kind: string, calls: Calls)
    requires req.call == DispatchEvent(Some(kind))
    ensures var plays := Plays(rt, req, calls); var handlers := Handlers(OfKind(rt.regs.live, kind));
      var (rt1, attempt) := RunMethod(rt, req, calls);
      && CallsEach(rt, handlers, [], calls, plays)
      && rt1 == Before(rt, plays, |plays|)
      && (attempt.Good? <==> forall p :: p in plays ==> !PlayStops(p))
      && (attempt.Good? ==> |plays| == |handlers| && attempt.value == ReplyFrom(req, rt1, Null, Some(Errors(plays))))
      && (attempt.Bad? ==>
            && plays != [] && PlayStops(plays[|plays| - 1])
            && attempt.exception == Threw(Rethrown(plays[|plays| - 1].settled.thrown)))
  {
    var snapshot := OfKind(rt.regs.live, kind);
    LoopCallsSnapshot(rt, snapshot, 0, [], calls);
    assert snapshot[0..] == snapshot;
    PlayAllCallsEach(rt, Handlers(snapshot), [], calls);
    LoopOutcomeExact(Plays(rt, req, calls), |snapshot|);
    hide Play, PlayAll, PlayStops, Rethrown, LoopOutcome, RunHandlers, CalledAt;
  }

  /** An action or a tool calls the handler registered under its name, once. */
  lemma InvokeRunsRegistered(rt: Runtime, req: Request, name: string, handler: Handler, calls: Calls)
    requires || (req.call == InvokeAction(name) && Lookup(rt.regs.actions, name) == Some(handler))
             || (req.call == InvokeTool(name) && Lookup(rt.regs.tools, name) == Some(handler))
    ensures var p := Play(rt, calls(handler, []), []);
      && Plays(rt, req, calls) == [p]
      && RunMethod(rt, req, calls) ==
           (p.runtime,
            if p.settled.Throws? then Bad(Threw(p.settled.thrown))
            else Good(ReplyFrom(req, p.runtime, OrNull(p.settled.value), None)))
  {
    hide Play;
    var p := Play(rt, calls(handler, []), []);
    assert [handler][1..] == [];
    assert PlayAll(p.runtime, [], [] + [p.answers], calls) == [] && [p] + [] == [p];
    assert PlayAll(rt, [handler], [], calls) == [p] + [];
  }

  // ---- what one line does ----

  predicate ActivationFails(host: Host, req: Request, load: Load)
    requires req.storage.Some?
  {
    req.extension !in host && (!load.Activates? || Play(Fresh(req), load.callback, []).settled.Throws?)
  }

  /** The request names nothing that is registered. */
  predicate LookupFails(r: Registrations, req: Request) {
    match req.call
    case InvokeAction(name) => name !in r.actions
    case InvokeTool(name) => name !in r.tools
    case DispatchEvent(kind) => kind.None?
    case Unsupported => true
  }

  /** The action or tool called throws, or a handler of the event throws a value that
      ends the dispatch. */
  predicate CallbackFails(rt: Runtime, req: Request, calls: Calls) {
    exists p :: p in Plays(rt, req, calls) && if req.call.DispatchEvent? then PlayStops(p) else p.settled.Throws?
  }

  /** Handling the line fails. */
  predicate Fails(host: Host, frame: Parsed, turn: Turn) {
    !frame.Parsed? || frame.request.call.Unsupported? || frame.request.storage.None?
    || ActivationFails(host, frame.request, turn.load)
    || (var rt := RuntimeFor(host, frame.request, turn.load).value[frame.request.extension];
        LookupFails(rt.regs, frame.request) || CallbackFails(rt, frame.request, turn.calls))
    || turn.unserialisable.Some?
  }

  /** The activation throws a value that ends the process. */
  predicate ActivationKills(req: Request, load: Load)
    requires req.storage.Some?
  {
    match load
    case ImportFails(thrown) => Kills(thrown)
    case NotAnExtension => false
    case Activates(callback) =>
      var settled := Play(Fresh(req), callback, []).settled;
      settled.Throws? && Kills(settled.thrown)
  }

  /** An action or tool throws a value that ends the process, or an event's handler
      one whose conversion throws such a value. */
  predicate CallbackKills(rt: Runtime, req: Request, calls: Calls) {
    exists p :: p in Plays(rt, req, calls) &&
      if req.call.DispatchEvent? then PlayStops(p) && Kills(Rethrown(p.settled.thrown))
      else p.settled.Throws? && Kills(p.settled.thrown)
  }

  /** The line ends the process: its extension's activation or callbacks, or the
      serialising of what they returned, throw a value that cannot be put into
      words. */
  predicate Deadly(host: Host, frame: Parsed, turn: Turn) {
    frame.Parsed? && !frame.request.call.Unsupported? && frame.request.storage.Some? &&
    var req := frame.request;
    if ActivationFails(host, req, turn.load) then ActivationKills(req, turn.load)
    else
      var rt := RuntimeFor(host, req, turn.load).value[req.extension];
      if LookupFails(rt.regs, req) then false
      else if CallbackFails(rt, req, turn.calls) then CallbackKills(rt, req, turn.calls)
      else turn.unserialisable.Some? && Kills(turn.unserialisable.value)
  }

  function IdOf(frame: Parsed): Option<int> { if frame.Parsed? then frame.request.requestId else Some(0) }

  ghost predicate RuntimeOk(rt: Runtime) { RegsOk(rt.regs) && EffectsOk(rt.data) }

  ghost predicate HostOk(host: Host) { forall e :: e in host ==> RuntimeOk(host[e]) }

  lemma EmptyRegsOk()
    ensures RegsOk(EmptyRegistrations())
  {}

  lemma RuntimeForKeepsHostOk(host: Host, req: Request, load: Load)
    requires HostOk(host) && RuntimeFor(host, req, load).Good?
    ensures HostOk(RuntimeFor(host, req, load).value)
    ensures req.extension in RuntimeFor(host, req, load).value
    ensures RuntimeFor(host, req, load).value[req.extension].data.automations == req.automations
  {
    if req.extension !in host {
      EmptyRegsOk();
      PlayPerforms(Fresh(req), load.callback, []);
      var ops := Play(Fresh(req), load.callback, []).ops;
      PerformKeepsRegsOk(Fresh(req), ops);
      PerformData(Fresh(req), ops);
    }
  }

  /** Every request comes to the operations of the handlers it calls. */
  lemma RunMethodIsPerform(rt: Runtime, req: Request, calls: Calls)
    ensures RunMethod(rt, req, calls).0 == Perform(rt, OpsOf(Plays(rt, req, calls))).0
  {
    var plays := Plays(rt, req, calls);
    PlaysPerform(rt, Callees(rt.regs, req), [], calls);
    match req.call {
      case DispatchEvent(kind) => if kind.Some? { DispatchRunsSnapshot(rt, req, kind.value, calls); }
      case InvokeAction(name) =>
        if name in rt.regs.actions { InvokeRunsRegistered(rt, req, name, rt.regs.actions[name], calls); }
      case InvokeTool(name) =>
        if name in rt.regs.tools { InvokeRunsRegistered(rt, req, name, rt.regs.tools[name], calls); }
      case Unsupported =>
    }
  }

  ghost predicate EffectGranted(frame: Parsed, r: Response) {
    r.Reply? ==> |r.effects| <= 1 && (r.effects != [] ==> frame.Parsed? && frame.request.automations.Some?)
  }

  lemma RunMethodKeepsOk(rt: Runtime, req: Request, calls: Calls)
    requires RuntimeOk(rt)
    ensures RuntimeOk(RunMethod(rt, req, calls).0)
    ensures RunMethod(rt, req, calls).0.data.automations == rt.data.automations
  {
    RunMethodIsPerform(rt, req, calls);
    var ops := OpsOf(Plays(rt, req, calls));
    PerformKeepsRegsOk(rt, ops);
    PerformData(rt, ops);
  }

  /** Which requests fail, and with what. */
  lemma RunMethodFails(rt: Runtime, req: Request, calls: Calls)
    ensures var (rt1, attempt) := RunMethod(rt, req, calls);
      && (attempt.Bad? <==> LookupFails(rt.regs, req) || CallbackFails(rt, req, calls))
      && (attempt.Bad? ==>
            (Catch(req.requestId, attempt.exception).None?
             <==> !LookupFails(rt.regs, req) && CallbackKills(rt, req, calls)))
      && (attempt.Good? ==> attempt.value.Reply? && attempt.value.requestId == req.requestId
                            && attempt.value.effects == rt1.data.effects && attempt.value.storage == rt1.data.storage)
  {
    hide Play, PlayAll, Rethrown, Kills;
    match req.call {
      case InvokeAction(name) =>
        if name in rt.regs.actions { InvokeRunsRegistered(rt, req, name, rt.regs.actions[name], calls); }
      case InvokeTool(name) =>
        if name in rt.regs.tools { InvokeRunsRegistered(rt, req, name, rt.regs.tools[name], calls); }
      case DispatchEvent(kind) => if kind.Some? { DispatchFails(rt, req, kind.value, calls); }
      case Unsupported =>
    }
  }

  lemma DispatchFails(rt: Runtime, req: Request, kind: string, calls: Calls)
    requires req.call == DispatchEvent(Some(kind))
    ensures var (rt1, attempt) := RunMethod(rt, req, calls);
      && (attempt.Bad? <==> CallbackFails(rt, req, calls))
      && (attempt.Bad? ==> (Catch(req.requestId, attempt.exception).None? <==> CallbackKills(rt, req, calls)))
  {
    DispatchRunsSnapshot(rt, req, kind, calls);
    hide Play, RunMethod, Rethrown, Kills;
    var plays := Plays(rt, req, calls);
    hide Plays, PlayStops;
    if p :| p in plays && PlayStops(p) {
      var last := plays[|plays| - 1];
      assert last in plays;
      forall q | q in plays && PlayStops(q) ensures q == last {
        var i :| 0 <= i < |plays| && plays[i] == q;
      }
    }
  }

  /** What one line's frame must be. */
  ghost predicate Answered(host: Host, frame: Parsed, turn: Turn, r: Response) {
    r.requestId == IdOf(frame) && (r.ErrorReply? <==> Fails(host, frame, turn)) && EffectGranted(frame, r)
  }

  /** A line gets one frame, with its own id, exactly if it is not deadly. The frame
      is an error exactly when reading, activation, lookup, the callback or
      serialising failed; an event's handler makes it one exactly if it throws a
      value that cannot be put into words. At most one automation effect is
      returned, and only if this request granted automations. */
  lemma HandleAnswers(host: Host, frame: Parsed, turn: Turn)
    requires HostOk(host)
    ensures HostOk(Handle(host, frame, turn).0)
    ensures match Handle(host, frame, turn).1
      case None => Deadly(host, frame, turn)
      case Some(r) => !Deadly(host, frame, turn) && Answered(host, frame, turn, r)
  {
    hide Handle, Deadly, Answered;
    if frame.Parsed? && !frame.request.call.Unsupported? && frame.request.storage.Some? {
      if RuntimeFor(host, frame.request, turn.load).Good? {
        HandleRuns(host, frame.request, turn);
      } else {
        HandleWithoutRuntime(host, frame.request, turn);
      }
    } else {
      HandleEarlyFailure(host, frame, turn);
    }
  }

  lemma HandleEarlyFailure(host: Host, frame: Parsed, turn: Turn)
    requires !frame.Parsed? || frame.request.call.Unsupported? || frame.request.storage.None?
    ensures var (after, r) := Handle(host, frame, turn);
      after == host && r.Some? && !Deadly(host, frame, turn) && Answered(host, frame, turn, r.value)
  {}

  lemma HandleWithoutRuntime(host: Host, req: Request, turn: Turn)
    requires !req.call.Unsupported? && req.storage.Some? && RuntimeFor(host, req, turn.load).Bad?
    ensures var (after, r) := Handle(host, Parsed(req), turn);
      && after == host && (r.None? <==> Deadly(host, Parsed(req), turn))
      && (r.Some? ==> Answered(host, Parsed(req), turn, r.value))
  {
    assert ActivationFails(host, req, turn.load);
    hide Play, Kills;
  }

  lemma HandleRuns(host: Host, req: Request, turn: Turn)
    requires HostOk(host) && !req.call.Unsupported? && req.storage.Some? && RuntimeFor(host, req, turn.load).Good?
    ensures var (after, r) := Handle(host, Parsed(req), turn);
      && HostOk(after) && (r.None? <==> Deadly(host, Parsed(req), turn))
      && (r.Some? ==> Answered(host, Parsed(req), turn, r.value))
  {
    RunKeepsHostOk(host, req, turn);
    NoFrameIfDeadly(host, req, turn);
    FrameAnswers(host, req, turn);
    hide HostOk, Handle, Deadly, Answered;
  }

  lemma NoFrameIfDeadly(host: Host, req: Request, turn: Turn)
    requires !req.call.Unsupported? && req.storage.Some? && RuntimeFor(host, req, turn.load).Good?
    ensures Handle(host, Parsed(req), turn).1.None? <==> Deadly(host, Parsed(req), turn)
  {
    assert !ActivationFails(host, req, turn.load);
    RunMethodFails(RuntimeFor(host, req, turn.load).value[req.extension], req, turn.calls);
    hide RunMethod, CallbackFails, CallbackKills, LookupFails, Kills, RuntimeFor, ActivationFails;
  }

  lemma FrameAnswers(host: Host, req: Request, turn: Turn)
    requires HostOk(host) && !req.call.Unsupported? && req.storage.Some? && RuntimeFor(host, req, turn.load).Good?
    ensures var r := Handle(host, Parsed(req), turn).1;
      r.Some? ==> Answered(host, Parsed(req), turn, r.value)
  {
    var rt := RuntimeFor(host, req, turn.load).value[req.extension];
    var (rt1, attempt) := RunMethod(rt, req, turn.calls);
    RuntimeForKeepsHostOk(host, req, turn.load);
    RunMethodKeepsOk(rt, req, turn.calls);
    assert EffectsOk(rt1.data) && rt1.data.automations == req.automations;
    assert !ActivationFails(host, req, turn.load);
    RunMethodFails(rt, req, turn.calls);
    WriteShows(req, attempt, turn.unserialisable);
    hide RunMethod, RuntimeOk, HostOk, CallbackFails, CallbackKills, LookupFails, Kills;
    hide RuntimeFor, ActivationFails, Write;
  }

  lemma WriteShows(req: Request, attempt: Attempt<Response>, unserialisable: Option<Thrown>)
    requires attempt.Good? ==> attempt.value.Reply? && attempt.value.requestId == req.requestId
    ensures var r := Write(req, attempt, unserialisable);
      r.Some? ==>
        && r.value.requestId == req.requestId
        && (r.value.ErrorReply? <==> attempt.Bad? || unserialisable.Some?)
        && (r.value.Reply? ==> attempt == Good(r.value))
  {}

  lemma RunKeepsHostOk(host: Host, req: Request, turn: Turn)
    requires HostOk(host) && !req.call.Unsupported? && req.storage.Some? && RuntimeFor(host, req, turn.load).Good?
    ensures HostOk(Handle(host, Parsed(req), turn).0)
  {
    var host1 := RuntimeFor(host, req, turn.load).value;
    RuntimeForKeepsHostOk(host, req, turn.load);
    RunMethodKeepsOk(host1[req.extension], req, turn.calls);
    hide RunMethod, RuntimeOk, RuntimeFor;
    var after := RunMethod(host1[req.extension], req, turn.calls).0;
    assert Handle(host, Parsed(req), turn).0 == host1[req.extension := after];
  }

  // ---- values that cannot be put into words ----

  /** Every handler throws this. */
  function Throwing(thrown: Thrown): Calls {
    (h: Handler, heard: seq<seq<Answer>>) => Strategy(_ => Settle(Throws(thrown)), 0)
  }

  /** A runtime with two handlers for the same event. */
  function TwoHandlers(): Runtime {
    Runtime(Registrations(map[], map[], [Entry(1, "turn.ended", 0), Entry(2, "turn.ended", 1)], 3),
            Data(map[], [], None, None, []))
  }

  /** For instance, of two live handlers the second is not called if the first throws
      a value whose conversion to text throws, and the dispatch fails. */
  lemma UnprintableThrowStopsDispatch(complaint: string)
    ensures
      var req := Request(Some(7), DispatchEvent(Some("turn.ended")), "x", Some(map[]), None, None);
      var calls := Throwing(Unprintable(Text(complaint)));
      && |Callees(TwoHandlers().regs, req)| == 2 && |Plays(TwoHandlers(), req, calls)| == 1
      && Handle(map["x" := TwoHandlers()], Parsed(req), Turn(NotAnExtension, calls, None)).1
           == Some(ErrorReply(Some(7), Message(complaint)))
  {
    var req := Request(Some(7), DispatchEvent(Some("turn.ended")), "x", Some(map[]), None, None);
    var calls := Throwing(Unprintable(Text(complaint)));
    var rt := TwoHandlers();
    var live := rt.regs.live;
    assert live[1..] == [live[1]] && [live[1]][1..] == [];
    assert OfKind([live[1]], "turn.ended") == [live[1]];
    assert OfKind(live, "turn.ended") == [live[0]] + [live[1]] == live;
    assert Plays(rt, req, calls) == [Played(rt, [], [], Throws(Unprintable(Text(complaint))))];
    DispatchRunsSnapshot(rt, req, "turn.ended", calls);
    hide RunMethod, Plays;
  }

  /** And an action that throws such a value ends the process: neither its own line
      nor any later one is answered. */
  lemma UnprintableThrowEndsHost(line: string, later: string, complaint: string)
    ensures
      var req := Request(Some(7), InvokeAction("a"), "x", Some(map[]), None, None);
      var activation := Performing([RegisterAction("a", 0)]);
      var turn := Turn(Activates(activation), Throwing(Unprintable(Text(complaint))), None);
      var served := Serve([line, later], _ => Parsed(req), _ => turn);
      !served.alive && served.output == []
  {
    var req := Request(Some(7), InvokeAction("a"), "x", Some(map[]), None, None);
    var activation := Performing([RegisterAction("a", 0)]);
    var calls := Throwing(Unprintable(Text(complaint)));
    var turn := Turn(Activates(activation), calls, None);
    var (rt, answer) := Step(Fresh(req), RegisterAction("a", 0));
    assert activation.act([]) == Do(RegisterAction("a", 0)) && [] + [answer] == [answer];
    assert activation.act([answer]) == Settle(Returns(Undefined));
    assert Play(rt, activation, [answer]).runtime == rt;
    assert Play(Fresh(req), activation, []).runtime == rt;
    InvokeRunsRegistered(rt, req, "a", 0, calls);
    hide Play, RunMethod;
    assert Handle(map[], Parsed(req), turn).1 == None;
    var parse: Parser := _ => Parsed(req);
    var turns: nat -> Turn := _ => turn;
    assert [line][..0] == [] && Serve([], parse, turns) == Served(map[], [], true);
    hide Handle;
    assert Serve([line], parse, turns).output == [] && !Serve([line], parse, turns).alive;
    DeadStaysDead([line], [later], parse, turns);
    assert [line] + [later] == [line, later];
  }

  // ---- whole runs ----

  lemma {:induction false} ServeKeepsHostOk(lines: seq<string>, parse: Parser, turns: nat -> Turn)
    ensures var served := Serve(lines, parse, turns);
      && HostOk(served.host)
      && (if served.alive then |served.output| == |lines| else |served.output| < |lines|)
    decreases |lines|
  {
    if lines != [] {
      var last := |lines| - 1;
      ServeKeepsHostOk(lines[..last], parse, turns);
      HandleAnswers(Serve(lines[..last], parse, turns).host, parse(lines[last]), turns(last));
      hide Handle, HostOk;
    }
  }

  /** The i-th line ends the process. */
  ghost predicate DeadlyAt(lines: seq<string>, parse: Parser, turns: nat -> Turn, i: nat)
    requires i < |lines|
  {
    Deadly(Serve(lines[..i], parse, turns).host, parse(lines[i]), turns(i))
  }

  /** The i-th line is answered by this frame. */
  ghost predicate AnsweredAt(lines: seq<string>, parse: Parser, turns: nat -> Turn, i: nat, r: Response)
    requires i < |lines|
  {
    Answered(Serve(lines[..i], parse, turns).host, parse(lines[i]), turns(i), r)
  }

  /** Every line before the first deadly one is answered, in order, and no other. */
  ghost predicate AnswersUpTo(lines: seq<string>, parse: Parser, turns: nat -> Turn, served: Served) {
    && |served.output| <= |lines|
    && (forall i :: 0 <= i < |served.output| ==>
          !DeadlyAt(lines, parse, turns, i) && AnsweredAt(lines, parse, turns, i, served.output[i]))
    && (served.alive <==> |served.output| == |lines|)
    && (!served.alive ==> DeadlyAt(lines, parse, turns, |served.output|))
  }

  /** Later lines do not matter for what happens at an earlier one. */
  lemma EarlierLine(lines: seq<string>, parse: Parser, turns: nat -> Turn, n: nat, i: nat)
    requires i < n <= |lines|
    ensures DeadlyAt(lines[..n], parse, turns, i) <==> DeadlyAt(lines, parse, turns, i)
    ensures forall r :: AnsweredAt(lines[..n], parse, turns, i, r) <==> AnsweredAt(lines, parse, turns, i, r)
  {
    assert lines[..n][i] == lines[i] && lines[..n][..i] == lines[..i];
  }

  lemma AnswersUpToOneMore(lines: seq<string>, parse: Parser, turns: nat -> Turn)
    requires lines != []
    requires var init := lines[..|lines| - 1]; AnswersUpTo(init, parse, turns, Serve(init, parse, turns))
    ensures AnswersUpTo(lines, parse, turns, Serve(lines, parse, turns))
  {
    var n := |lines| - 1;
    var init := lines[..n];
    var before, after := Serve(init, parse, turns), Serve(lines, parse, turns);
    ServeKeepsHostOk(init, parse, turns);
    LastLineServed(lines, parse, turns);
    forall i | 0 <= i < n
      ensures DeadlyAt(init, parse, turns, i) <==> DeadlyAt(lines, parse, turns, i)
      ensures forall r :: AnsweredAt(init, parse, turns, i, r) <==> AnsweredAt(lines, parse, turns, i, r)
    {
      EarlierLine(lines, parse, turns, n, i);
    }
    hide Serve, DeadlyAt, AnsweredAt, HostOk;
    if after.alive {
      forall i | 0 <= i < |after.output|
        ensures !DeadlyAt(lines, parse, turns, i) && AnsweredAt(lines, parse, turns, i, after.output[i])
      {
        if i < n { assert after.output[i] == before.output[i]; }
      }
    }
  }

  /** What the last line adds to a run that has got there. */
  lemma LastLineServed(lines: seq<string>, parse: Parser, turns: nat -> Turn)
    requires lines != [] && HostOk(Serve(lines[..|lines| - 1], parse, turns).host)
    ensures var n := |lines| - 1;
      var before, after := Serve(lines[..n], parse, turns), Serve(lines, parse, turns);
      && (!before.alive ==> after == before)
      && (before.alive && !after.alive ==> after.output == before.output && DeadlyAt(lines, parse, turns, n))
      && (after.alive ==> before.alive && |after.output| == |before.output| + 1
                          && after.output[..|before.output|] == before.output
                          && !DeadlyAt(lines, parse, turns, n)
                          && AnsweredAt(lines, parse, turns, n, after.output[|before.output|]))
  {
    var n := |lines| - 1;
    HandleAnswers(Serve(lines[..n], parse, turns).host, parse(lines[n]), turns(n));
    hide Handle, Deadly, Answered, HostOk;
  }

  /** Over every run: each line gets one frame, at its own place, failing exactly when
      its handling failed, up to the first line that ends the process. So every line
      is answered exactly if none of them makes the extension throw a value that
      cannot be put into words where the host has to. */
  lemma {:induction false} OneResponsePerLine(lines: seq<string>, parse: Parser, turns: nat -> Turn)
    ensures var served := Serve(lines, parse, turns);
      && AnswersUpTo(lines, parse, turns, served)
      && (|served.output| == |lines| <==> forall i :: 0 <= i < |lines| ==> !DeadlyAt(lines, parse, turns, i))
    decreases |lines|
  {
    if lines != [] {
      OneResponsePerLine(lines[..|lines| - 1], parse, turns);
      AnswersUpToOneMore(lines, parse, turns);
    }
    hide Serve, DeadlyAt, AnsweredAt;
  }

  /** What one more line adds. */
  lemma ServeOneMore(lines: seq<string>, line: string, parse: Parser, turns: nat -> Turn)
    requires Serve(lines, parse, turns).alive
    ensures var before := Serve(lines, parse, turns);
      var (after, response) := Handle(before.host, parse(line), turns(|before.output|));
      Serve(lines + [line], parse, turns)
        == if response.None? then Served(after, before.output, false)
           else Served(after, before.output + [response.value], true)
  {
    ServeKeepsHostOk(lines, parse, turns);
    assert (lines + [line])[..|lines|] == lines;
    hide Handle, HostOk;
  }

  /** Nothing is read once the process has ended. */
  lemma {:induction false} DeadStaysDead(lines: seq<string>, more: seq<string>, parse: Parser, turns: nat -> Turn)
    requires !Serve(lines, parse, turns).alive
    ensures Serve(lines + more, parse, turns) == Serve(lines, parse, turns)
    decreases |more|
  {
    if more == [] {
      assert lines + more == lines;
    } else {
      var n := |more| - 1;
      DeadStaysDead(lines, more[..n], parse, turns);
      assert (lines + more)[..|lines + more| - 1] == lines + more[..n];
      hide Handle;
    }
  }

  /** The line activates the extension successfully. */
  predicate ActivatesNow(host: Host, frame: Parsed, turn: Turn, extension: string) {
    frame.Parsed? && !frame.request.call.Unsupported? && frame.request.extension == extension
    && extension !in host && RuntimeFor(host, frame.request, turn.load).Good?
  }

  function Activations(lines: seq<string>, parse: Parser, turns: nat -> Turn, extension: string): nat
    decreases |lines|
  {
    if lines == [] then 0 else
    var last := |lines| - 1;
    var before := Serve(lines[..last], parse, turns);
    Activations(lines[..last], parse, turns, extension)
    + if before.alive && ActivatesNow(before.host, parse(lines[last]), turns(last), extension) then 1 else 0
  }

  /** Over every run an extension is activated successfully at most once, and is
      cached exactly if it was: a failed activation leaves nothing behind, so the
      next request tries again. */
  lemma {:induction false} ActivatedAtMostOnce(lines: seq<string>, parse: Parser, turns: nat -> Turn, extension: string)
    ensures Activations(lines, parse, turns, extension)
            == if extension in Serve(lines, parse, turns).host then 1 else 0
    decreases |lines|
  {
    if lines != [] {
      var last := |lines| - 1;
      ActivatedAtMostOnce(lines[..last], parse, turns, extension);
      HandleCaches(Serve(lines[..last], parse, turns).host, parse(lines[last]), turns(last), extension);
      hide Handle, ActivatesNow;
    }
  }

  lemma HandleCaches(host: Host, frame: Parsed, turn: Turn, extension: string)
    ensures extension in Handle(host, frame, turn).0
      <==> extension in host || ActivatesNow(host, frame, turn, extension)
    ensures ActivatesNow(host, frame, turn, extension) ==> extension !in host
  {
    hide Play, RunMethod;
  }

  /** A request touches only its own extension's runtime. */
  lemma OtherExtensionsUntouched(host: Host, req: Request, turn: Turn, other: string)
    requires other != req.extension
    ensures var after := Handle(host, Parsed(req), turn).0;
      (other in after <==> other in host) && (other in host ==> after[other] == host[other])
  {}

  // ---- a cached runtime behaves like a fresh one ----

  function RenameHeard(f: nat -> nat, heard: seq<seq<Answer>>): seq<seq<Answer>> {
    seq(|heard|, i requires 0 <= i < |heard| => RenameAnswers(f, heard[i]))
  }

  ghost predicate AllHandOutFrom(from: nat, heard: seq<seq<Answer>>) {
    forall answers :: answers in heard ==> HandsOutFrom(from, answers)
  }

  /** Every handler does in `there` what it does in `here`, with its handles renamed,
      as long as the request's callbacks have heard the same so far. */
  ghost predicate AllAlike(f: nat -> nat, from: nat, here: Calls, there: Calls) {
    forall h, heard :: AllHandOutFrom(from, heard) ==> Alike(f, from, here(h, heard), there(h, RenameHeard(f, heard)))
  }

  /** The same handlers hear the same answers, do the same and settle alike. */
  ghost predicate SamePlays(f: nat -> nat, ps: seq<Played>, qs: seq<Played>) {
    |ps| == |qs| && forall k :: 0 <= k < |ps| ==> SamePlay(f, ps[k], qs[k])
  }

  function There(f: nat -> nat, rt: Runtime): Runtime { Runtime(RenameRegs(f, rt.regs), rt.data) }

  /** The calls are alike, and so are the runtimes they leave. */
  ghost predicate AlikeRuns(f: nat -> nat, rt: Runtime, ps: seq<Played>, qs: seq<Played>) {
    SamePlays(f, ps, qs) && Renames(f, Before(rt, ps, |ps|).regs)
  }

  lemma {:induction false} PlayAllAlike(f: nat -> nat, from: nat, rt: Runtime, handlers: seq<Handler>,
                                        heard: seq<seq<Answer>>, here: Calls, there: Calls)
    requires Renames(f, rt.regs) && from <= rt.regs.nextId
    requires AllAlike(f, from, here, there) && AllHandOutFrom(from, heard)
    ensures AlikeRuns(f, rt, PlayAll(rt, handlers, heard, here),
                      PlayAll(There(f, rt), handlers, RenameHeard(f, heard), there))
    decreases |handlers|
  {
    if handlers == [] {
      assert AlikeRuns(f, rt, [], []);
    } else {
      PlayOneAlike(f, from, rt, handlers[0], heard, here, there);
      hide Play, Renames, SamePlay, There, RenameHeard, AllHandOutFrom, AllAlike, AlikeRuns, PlayAll, PlayStops;
      var p := Play(rt, here(handlers[0], heard), []);
      var q := Play(There(f, rt), there(handlers[0], RenameHeard(f, heard)), []);
      PlayAllUnfolds(rt, handlers, heard, here);
      PlayAllUnfolds(There(f, rt), handlers, RenameHeard(f, heard), there);
      StopsAlike(f, rt, p, q);
      if !PlayStops(p) {
        PlayAllAlike(f, from, p.runtime, handlers[1..], heard + [p.answers], here, there);
        AlikeRunsCons(f, rt, p, q, PlayAll(p.runtime, handlers[1..], heard + [p.answers], here),
                      PlayAll(q.runtime, handlers[1..], RenameHeard(f, heard) + [q.answers], there));
      }
    }
  }

  lemma PlayAllUnfolds(rt: Runtime, handlers: seq<Handler>, heard: seq<seq<Answer>>, calls: Calls)
    requires handlers != []
    ensures var p := Play(rt, calls(handlers[0], heard), []);
      PlayAll(rt, handlers, heard, calls)
        == if PlayStops(p) then [p] else [p] + PlayAll(p.runtime, handlers[1..], heard + [p.answers], calls)
  {
    hide Play;
    var p := Play(rt, calls(handlers[0], heard), []);
    assert [p] + [] == [p];
  }

  lemma StopsAlike(f: nat -> nat, rt: Runtime, p: Played, q: Played)
    requires SamePlay(f, p, q) && Renames(f, p.runtime.regs)
    ensures (PlayStops(p) <==> PlayStops(q)) && AlikeRuns(f, rt, [p], [q])
  {
    PlayedThere(f, p, q);
    hide SamePlay, Renames;
  }

  lemma AlikeRunsCons(f: nat -> nat, rt: Runtime, p: Played, q: Played, ps: seq<Played>, qs: seq<Played>)
    requires SamePlay(f, p, q) && AlikeRuns(f, p.runtime, ps, qs)
    ensures AlikeRuns(f, rt, [p] + ps, [q] + qs)
  {
    hide SamePlay, Renames;
    assert Before(rt, [p] + ps, |ps| + 1) == Before(p.runtime, ps, |ps|);
  }

  /** One of the calls, and what the next one starts from. */
  lemma PlayOneAlike(f: nat -> nat, from: nat, rt: Runtime, h: Handler, heard: seq<seq<Answer>>, here: Calls,
                     there: Calls)
    requires Renames(f, rt.regs) && from <= rt.regs.nextId
    requires AllAlike(f, from, here, there) && AllHandOutFrom(from, heard)
    ensures var p := Play(rt, here(h, heard), []);
      var q := Play(There(f, rt), there(h, RenameHeard(f, heard)), []);
      && SamePlay(f, p, q) && q.runtime == There(f, p.runtime)
      && Renames(f, p.runtime.regs) && from <= p.runtime.regs.nextId
      && AllHandOutFrom(from, heard + [p.answers])
      && RenameHeard(f, heard + [p.answers]) == RenameHeard(f, heard) + [q.answers]
  {
    var c, d := here(h, heard), there(h, RenameHeard(f, heard));
    NothingHeard(f, from);
    PlayAlike(f, from, rt, c, d, []);
    var p, q := Play(rt, c, []), Play(There(f, rt), d, []);
    PlayedThere(f, p, q);
    hide Play, Renames, SamePlay, RenameRegs, RenameAnswers, HandsOutFrom, Alike;
    assert RenameHeard(f, heard + [p.answers]) == RenameHeard(f, heard) + [q.answers];
  }

  lemma NothingHeard(f: nat -> nat, from: nat)
    ensures RenameAnswers(f, []) == [] && HandsOutFrom(from, [])
  {}

  lemma PlayedThere(f: nat -> nat, p: Played, q: Played)
    requires SamePlay(f, p, q)
    ensures q.runtime == There(f, p.runtime) && q.answers == RenameAnswers(f, p.answers) && q.settled == p.settled
  {}

  lemma {:induction false} SameErrors(f: nat -> nat, ps: seq<Played>, qs: seq<Played>)
    requires SamePlays(f, ps, qs)
    ensures Errors(ps) == Errors(qs)
  {
    if ps != [] {
      PlayedThere(f, ps[0], qs[0]);
      SameErrors(f, ps[1..], qs[1..]);
    }
  }

  lemma SameCallees(f: nat -> nat, r: Registrations, req: Request)
    ensures Callees(RenameRegs(f, r), req) == Callees(r, req)
  {
    match req.call {
      case DispatchEvent(kind) =>
        if kind.Some? {
          RenameOfKind(f, r.live, kind.value);
          assert Handlers(RenameEntries(f, OfKind(r.live, kind.value))) == Handlers(OfKind(r.live, kind.value));
        }
      case _ =>
    }
  }

  /** What a request comes to, read off the calls it makes. */
  function Concluded(req: Request, rt: Runtime, plays: seq<Played>): Attempt<Response> {
    if LookupFails(rt.regs, req) then
      Bad(Own(match req.call case DispatchEvent(_) => NoEvent case Unsupported => UnsupportedMethod case _ => Missing))
    else if req.call.DispatchEvent? then
      DispatchReply(req, Before(rt, plays, |plays|), LoopOutcome(plays))
    else if plays == [] then Bad(Own(Missing))
    else
      match plays[0].settled
      case Throws(thrown) => Bad(Threw(thrown))
      case Returns(value) => Good(ReplyFrom(req, plays[0].runtime, OrNull(value), None))
  }

  lemma RunMethodConcludes(rt: Runtime, req: Request, calls: Calls)
    ensures var plays := Plays(rt, req, calls);
      RunMethod(rt, req, calls) == (Before(rt, plays, |plays|), Concluded(req, rt, plays))
  {
    hide Play;
    match req.call {
      case DispatchEvent(kind) => if kind.Some? { DispatchRunsSnapshot(rt, req, kind.value, calls); }
      case InvokeAction(name) =>
        if name in rt.regs.actions { InvokeRunsRegistered(rt, req, name, rt.regs.actions[name], calls); }
      case InvokeTool(name) =>
        if name in rt.regs.tools { InvokeRunsRegistered(rt, req, name, rt.regs.tools[name], calls); }
      case Unsupported =>
    }
  }

  lemma SameConclusion(f: nat -> nat, rt: Runtime, req: Request, ps: seq<Played>, qs: seq<Played>)
    requires SamePlays(f, ps, qs)
    ensures Concluded(req, There(f, rt), qs) == Concluded(req, rt, ps)
    ensures Before(There(f, rt), qs, |qs|) == There(f, Before(rt, ps, |ps|))
  {
    SameErrors(f, ps, qs);
    if ps != [] {
      PlayedThere(f, ps[0], qs[0]);
      PlayedThere(f, ps[|ps| - 1], qs[|ps| - 1]);
    }
  }

  lemma RenameMethod(f: nat -> nat, rt: Runtime, req: Request, here: Calls, there: Calls)
    requires Renames(f, rt.regs) && AllAlike(f, rt.regs.nextId, here, there)
    ensures SamePlays(f, Plays(rt, req, here), Plays(There(f, rt), req, there))
    ensures var (rt1, attempt) := RunMethod(rt, req, here);
      RunMethod(There(f, rt), req, there) == (There(f, rt1), attempt)
  {
    SameCallees(f, rt.regs, req);
    assert RenameHeard(f, []) == [];
    PlayAllAlike(f, rt.regs.nextId, rt, Callees(rt.regs, req), [], here, there);
    RunMethodConcludes(rt, req, here);
    RunMethodConcludes(There(f, rt), req, there);
    SameConclusion(f, rt, req, Plays(rt, req, here), Plays(There(f, rt), req, there));
  }

  lemma {:induction false} RenamedIsSame(f: nat -> nat, r: Registrations)
    ensures SameRegistrations(r, RenameRegs(f, r))
  {}

  /** Whatever the handlers do on the one runtime, there are handlers on the other
      that do alike. */
  lemma SomeHandlersAreAlike(r: Registrations, q: Registrations, here: Calls) returns (there: Calls)
    requires SameRegistrations(r, q) && IdsOk(r) && IdsOk(q)
    ensures AllAlike(Pairing(r, q), r.nextId, here, there)
  {
    var f, g := Pairing(r, q), Unpairing(r, q);
    there := (h: Handler, heard: seq<seq<Answer>>) => Renamed(f, g, here(h, RenameHeard(g, heard)));
    forall h, heard | AllHandOutFrom(r.nextId, heard)
      ensures Alike(f, r.nextId, here(h, heard), there(h, RenameHeard(f, heard)))
    {
      forall i | 0 <= i < |heard| ensures RenameAnswers(g, RenameAnswers(f, heard[i])) == heard[i] {
        assert heard[i] in heard;
        UnpairingUndoes(r, q, heard[i]);
      }
      assert RenameHeard(g, RenameHeard(f, heard)) == heard;
      SomeCallbackIsAlike(r, q, here(h, heard));
    }
  }

  /** The calls that a request makes on a cached runtime. */
  function PlaysOn(host: Host, req: Request, calls: Calls): seq<Played>
    requires req.extension in host && req.storage.Some?
  {
    Plays(Runtime(host[req.extension].regs, DataOf(req)), req, calls)
  }

  /** Two hosts that cached the extension with the same registrations, whatever
      requests they served before and whatever those left behind, treat the same
      request alike, if the extension's code is the same: its handlers make the same
      moves on the same answers, each with its own runtime's handles. Then they do
      hear the same answers, so perform the same operations and settle alike; the
      responses and the data are equal, and the registrations still agree. */
  lemma ReusedRuntimeIsFresh(host: Host, other: Host, req: Request, turn: Turn, there: Calls)
    requires req.extension in host && req.extension in other
    requires IdsOk(host[req.extension].regs) && IdsOk(other[req.extension].regs)
    requires SameRegistrations(host[req.extension].regs, other[req.extension].regs)
    requires req.storage.Some? && !req.call.Unsupported?
    requires var r := host[req.extension].regs;
      AllAlike(Pairing(r, other[req.extension].regs), r.nextId, turn.calls, there)
    ensures
      var f := Pairing(host[req.extension].regs, other[req.extension].regs);
      var (h1, r1) := Handle(host, Parsed(req), turn);
      var (h2, r2) := Handle(other, Parsed(req), turn.(calls := there));
      && SamePlays(f, PlaysOn(host, req, turn.calls), PlaysOn(other, req, there))
      && r1 == r2 && h1[req.extension].data == h2[req.extension].data
      && SameRegistrations(h1[req.extension].regs, h2[req.extension].regs)
  {
    var r, q := host[req.extension].regs, other[req.extension].regs;
    var f := Pairing(r, q);
    PairingRenames(r, q);
    RenameMethod(f, Runtime(r, DataOf(req)), req, turn.calls, there);
    RenamedIsSame(f, RunMethod(Runtime(r, DataOf(req)), req, turn.calls).0.regs);
    hide RunMethod, Plays, Pairing, Renames, RenameRegs, SamePlays, SameRegistrations;
  }

  /** Some history of requests, failed ones included, leads here. */
  ghost predicate Reachable(host: Host) {
    exists lines, parse, turns :: host == Serve(lines, parse, turns).host
  }

  lemma ReachableIsOk(host: Host)
    requires Reachable(host)
    ensures HostOk(host)
  {
    var lines, parse, turns :| host == Serve(lines, parse, turns).host;
    ServeKeepsHostOk(lines, parse, turns);
  }

  /** So it is after any two histories that registered the same. */
  lemma AnyHistoryLooksFresh(host: Host, other: Host, req: Request, turn: Turn, there: Calls)
    requires Reachable(host) && Reachable(other)
    requires req.extension in host && req.extension in other && req.storage.Some? && !req.call.Unsupported?
    requires var r, q := host[req.extension].regs, other[req.extension].regs;
      SameRegistrations(r, q) && AllAlike(Pairing(r, q), r.nextId, turn.calls, there)
    ensures SamePlays(Pairing(host[req.extension].regs, other[req.extension].regs),
                      PlaysOn(host, req, turn.calls), PlaysOn(other, req, there))
    ensures Handle(host, Parsed(req), turn).1 == Handle(other, Parsed(req), turn.(calls := there)).1
  {
    ReachableIsOk(host);
    ReachableIsOk(other);
    ReusedRuntimeIsFresh(host, other, req, turn, there);
    hide Handle, Pairing, AllAlike, SamePlays, SameRegistrations;
  }

  /** The storage a cached runtime returns is the request's storage changed by
      exactly the `set` and `delete` calls of the handlers it called, in order. */
  lemma StorageIsOwnFold(host: Host, req: Request, turn: Turn)
    requires req.extension in host && req.storage.Some?
    requires var response := Handle(host, Parsed(req), turn).1; response.Some? && response.value.Reply?
    ensures Handle(host, Parsed(req), turn).1.value.storage
         == Stored(req.storage.value, OpsOf(PlaysOn(host, req, turn.calls)))
  {
    var rt := Runtime(host[req.extension].regs, DataOf(req));
    ReplyShowsStorage(host, req, turn);
    RunMethodIsPerform(rt, req, turn.calls);
    PerformData(rt, OpsOf(Plays(rt, req, turn.calls)));
    hide Handle, RunMethod, Perform, Stored, Plays, OpsOf;
  }

  lemma ReplyShowsStorage(host: Host, req: Request, turn: Turn)
    requires req.extension in host && req.storage.Some?
    requires var response := Handle(host, Parsed(req), turn).1; response.Some? && response.value.Reply?
    ensures var rt := Runtime(host[req.extension].regs, DataOf(req));
      Handle(host, Parsed(req), turn).1.value.storage == RunMethod(rt, req, turn.calls).0.data.storage
  {
    RunMethodFails(Runtime(host[req.extension].regs, DataOf(req)), req, turn.calls);
    hide RunMethod, CallbackFails, CallbackKills, LookupFails, Kills;
  }

  /** An event's handlers are those registered when it arrives; the errors returned
      are exactly those of the ones that threw. */
  lemma EventStorageIsOwnFold(host: Host, req: Request, turn: Turn, kind: string)
    requires req.extension in host && req.storage.Some?
    requires req.call == DispatchEvent(Some(kind))
    requires var response := Handle(host, Parsed(req), turn).1; response.Some? && response.value.Reply?
    ensures var rt := Runtime(host[req.extension].regs, DataOf(req));
      var plays := PlaysOn(host, req, turn.calls);
      var reply := Handle(host, Parsed(req), turn).1.value;
      && |plays| == |OfKind(host[req.extension].regs.live, kind)|
      && CallsEach(rt, Handlers(OfKind(host[req.extension].regs.live, kind)), [], turn.calls, plays)
      && reply.storage == Stored(req.storage.value, OpsOf(plays))
      && reply.handlerErrors == Some(Errors(plays))
  {
    StorageIsOwnFold(host, req, turn);
    DispatchRunsSnapshot(Runtime(host[req.extension].regs, DataOf(req)), req, kind, turn.calls);
  }

  // ---- the activating request ----

  /** What activation does for this request, on a runtime with nothing registered. */
  function Activation(req: Request, callback: Callback): Played
    requires req.storage.Some?
  {
    Play(Fresh(req), callback, [])
  }

  /** The handlers that do nothing. */
  function Idle(): Calls { (h: Handler, heard: seq<seq<Answer>>) => Strategy(_ => Settle(Returns(Null)), 0) }

  lemma {:induction false} IdleChangesNothing(rt: Runtime, handlers: seq<Handler>, heard: seq<seq<Answer>>)
    ensures var plays := PlayAll(rt, handlers, heard, Idle());
      Before(rt, plays, |plays|) == rt && forall p :: p in plays ==> p.settled == Returns(Null)
    decreases |handlers|
  {
    if handlers != [] {
      IdleChangesNothing(rt, handlers[1..], heard + [[]]);
    }
  }

  lemma IdleReplies(rt: Runtime, req: Request)
    requires !LookupFails(rt.regs, req)
    ensures RunMethod(rt, req, Idle()).1.Good?
    ensures var reply := RunMethod(rt, req, Idle()).1.value;
      && reply.Reply? && reply.storage == rt.data.storage
      && reply.views == rt.data.views && reply.effects == rt.data.effects
  {
    IdleChangesNothing(rt, Callees(rt.regs, req), []);
    RunMethodConcludes(rt, req, Idle());
    RunMethodFails(rt, req, Idle());
  }

  /** The request that activates an extension, whichever method it calls, is answered
      on the data that activation left, not on the request's own. Its response is
      that of a cached runtime with the same registrations, whatever the handlers
      do, exactly if it names nothing registered or activation published nothing,
      applied no effect and left the storage as it was. */
  lemma FirstRequestMatchesCached(host: Host, req: Request, callback: Callback)
    requires req.extension !in host && req.storage.Some? && !req.call.Unsupported?
    requires Activation(req, callback).settled.Returns?
    ensures
      var activation := Activation(req, callback);
      var cached := host[req.extension := activation.runtime];
      (forall turn: Turn :: turn.load == Activates(callback) ==>
         Handle(host, Parsed(req), turn).1 == Handle(cached, Parsed(req), turn).1)
      <==> LookupFails(activation.runtime.regs, req) || LeavesData(DataOf(req), activation.ops)
  {
    var activation := Activation(req, callback);
    var regs, data := activation.runtime.regs, activation.runtime.data;
    var cached := host[req.extension := activation.runtime];
    PlayPerforms(Fresh(req), callback, []);
    DataIsLeft(Fresh(req), activation.ops);
    PerformData(Fresh(req), activation.ops);
    assert data == DataOf(req) <==> LeavesData(DataOf(req), activation.ops);
    hide Play, Perform, LeavesData, Stored, Handle, LookupFails;
    if LookupFails(regs, req) || data == DataOf(req) {
      forall turn: Turn | turn.load == Activates(callback)
        ensures Handle(host, Parsed(req), turn).1 == Handle(cached, Parsed(req), turn).1
      {
        FirstRequestAgrees(host, req, callback, turn);
      }
    } else {
      FirstRequestDiffers(host, req, callback);
    }
  }

  lemma FirstRequestAgrees(host: Host, req: Request, callback: Callback, turn: Turn)
    requires req.extension !in host && req.storage.Some? && !req.call.Unsupported?
    requires Activation(req, callback).settled.Returns? && turn.load == Activates(callback)
    requires var rt := Activation(req, callback).runtime; LookupFails(rt.regs, req) || rt.data == DataOf(req)
    ensures var cached := host[req.extension := Activation(req, callback).runtime];
      Handle(host, Parsed(req), turn).1 == Handle(cached, Parsed(req), turn).1
  {
    hide Play, RunMethod;
    var rt := Activation(req, callback).runtime;
    var cached := host[req.extension := rt];
    assert RuntimeFor(host, req, turn.load).value[req.extension] == rt;
    assert RuntimeFor(cached, req, turn.load).value[req.extension] == Runtime(rt.regs, DataOf(req));
    if LookupFails(rt.regs, req) { LookupAnswers(host, cached, req, turn); }
  }

  /** Handlers that do nothing show the difference. */
  lemma FirstRequestDiffers(host: Host, req: Request, callback: Callback)
    requires req.extension !in host && req.storage.Some? && !req.call.Unsupported?
    requires var activation := Activation(req, callback);
      && activation.settled.Returns? && !LookupFails(activation.runtime.regs, req)
      && activation.runtime.data != DataOf(req)
      && activation.runtime.data.threads == req.threads && activation.runtime.data.automations == req.automations
    ensures var cached := host[req.extension := Activation(req, callback).runtime];
      var turn := Turn(Activates(callback), Idle(), None);
      Handle(host, Parsed(req), turn).1 != Handle(cached, Parsed(req), turn).1
  {
    var rt := Activation(req, callback).runtime;
    IdleReplies(rt, req);
    IdleReplies(Runtime(rt.regs, DataOf(req)), req);
    hide Play, RunMethod, LookupFails;
  }

  lemma LookupAnswers(host: Host, cached: Host, req: Request, turn: Turn)
    requires RuntimeFor(host, req, turn.load).Good? && RuntimeFor(cached, req, turn.load).Good?
    requires !req.call.Unsupported?
    requires LookupFails(RuntimeFor(host, req, turn.load).value[req.extension].regs, req)
    requires LookupFails(RuntimeFor(cached, req, turn.load).value[req.extension].regs, req)
    ensures Handle(host, Parsed(req), turn).1 == Handle(cached, Parsed(req), turn).1
  {
    hide RuntimeFor;
  }

  /** Performs these operations and returns. */
  function Performing(ops: seq<Op>): Callback {
    Strategy((heard: seq<Answer>) => if |heard| < |ops| then Do(ops[|heard|]) else Settle(Returns(Undefined)), |ops|)
  }

  /** For instance, a view published while activating appears in the first
      response and in no later one. */
  lemma ActivationShowsInFirstResponse(view: View)
    ensures
      var callback := Performing([RegisterAction("a", 0), Publish(view)]);
      var req := Request(Some(1), InvokeAction("a"), "x", Some(map[]), None, None);
      var turn := Turn(Activates(callback), Idle(), None);
      var (host, first) := Handle(map[], Parsed(req), turn);
      var later := Handle(host, Parsed(req), turn).1;
      && first.Some? && first.value.Reply? && first.value.views == [view]
      && later.Some? && later.value.Reply? && later.value.views == []
  {
    var ops := [RegisterAction("a", 0), Publish(view)];
    var callback := Performing(ops);
    var req := Request(Some(1), InvokeAction("a"), "x", Some(map[]), None, None);
    var rt := Fresh(req);
    var (rt1, a1) := Step(rt, ops[0]);
    var (rt2, a2) := Step(rt1, ops[1]);
    assert callback.act([]) == Do(ops[0]) && callback.act([a1]) == Do(ops[1]);
    assert callback.act([a1] + [a2]) == Settle(Returns(Undefined));
    assert [] + [a1] == [a1];
    assert Play(rt2, callback, [a1] + [a2]).runtime == rt2;
    assert Play(rt1, callback, [a1]).runtime == rt2;
    assert Play(rt, callback, []).runtime == rt2;
    IdleReplies(rt2, req);
    IdleReplies(Runtime(rt2.regs, DataOf(req)), req);
    IdleLeaves(rt2, req);
    hide Play, RunMethod;
  }

  lemma IdleLeaves(rt: Runtime, req: Request)
    ensures RunMethod(rt, req, Idle()).0 == rt
  {
    IdleChangesNothing(rt, Callees(rt.regs, req), []);
    RunMethodConcludes(rt, req, Idle());
  }
}
