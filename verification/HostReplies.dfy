/** What a reply says and whom a request calls, read off the extension's own
    operations: those of this request, and those of all requests since its
    activation. */
module HostReplies {
  import opened Basics
  import opened HostRuntime
  import opened HostHistory
  import opened HostProtocol

  // ---- the reply to one request ----

  /** The data a request starts from on a cached runtime: its own storage and grants,
      and nothing published or applied. */
  function OwnRuntime(host: Host, req: Request): Runtime
    requires req.extension in host && req.storage.Some?
  {
    Runtime(host[req.extension].regs, Data(req.storage.value, [], req.threads, req.automations, []))
  }

  /** The effects a request may return: the first it applied, if it was granted any. */
  function OwnEffects(req: Request, ops: seq<Op>): seq<Effect> {
    if req.automations.None? then [] else AsSeq(FirstEffect(ops))
  }

  /** The value sent for what a handler returned. */
  ghost predicate Sends(sent: Value, returned: Value) {
    if returned.Undefined? || returned.Null? then sent.Null? else sent == returned
  }

  /** The handler registered under the name that an action or tool request gives. */
  predicate Invokes(r: Registrations, req: Request, handler: Handler) {
    match req.call
    case InvokeAction(name) => name in r.actions && r.actions[name] == handler
    case InvokeTool(name) => name in r.tools && r.tools[name] == handler
    case _ => false
  }

  /** An action or tool that returns is answered with the value it returned, the
      request's storage as it left it, exactly the views it published, and the
      effect it applied. What it registered is kept. */
  lemma InvokeReplies(host: Host, req: Request, handler: Handler, turn: Turn)
    requires req.extension in host && req.storage.Some? && turn.unserialisable.None?
    requires Invokes(host[req.extension].regs, req, handler)
    requires Play(OwnRuntime(host, req), turn.calls(handler, []), []).settled.Returns?
    ensures var p := Play(OwnRuntime(host, req), turn.calls(handler, []), []);
      var (after, response) := Handle(host, Parsed(req), turn);
      && response.Some? && response.value.Reply?
      && response.value.requestId == req.requestId
      && Sends(response.value.result, p.settled.value)
      && response.value.storage == Stored(req.storage.value, p.ops)
      && response.value.views == Published(p.ops)
      && response.value.effects == OwnEffects(req, p.ops)
      && response.value.handlerErrors == None
      && after == host[req.extension := p.runtime]
  {
    var rt := OwnRuntime(host, req);
    var c := turn.calls(handler, []);
    var p := Play(rt, c, []);
    InvokeRunsRegistered(rt, req, req.call.name, handler, turn.calls);
    PlayPerforms(rt, c, []);
    LeavesOwnData(rt, p.ops);
    hide Play, RunMethod, Plays, Perform, Stored, Published, FirstEffect;
  }

  lemma LeavesOwnData(rt: Runtime, ops: seq<Op>)
    requires rt.data.views == [] && rt.data.effects == []
    ensures var d := Perform(rt, ops).0.data;
      && d.storage == Stored(rt.data.storage, ops) && d.views == Published(ops)
      && d.effects == if rt.data.automations.None? then [] else AsSeq(FirstEffect(ops))
  {
    PerformData(rt, ops);
    ViewsArePublished(rt, ops);
    EffectIsFirst(rt, ops);
    hide Perform, Stored, FirstEffect;
    assert [] + Published(ops) == Published(ops);
    hide Published;
  }

  /** One that throws an error with a message is answered with that message. */
  lemma InvokeReportsError(host: Host, req: Request, handler: Handler, turn: Turn, message: string)
    requires req.extension in host && req.storage.Some?
    requires Invokes(host[req.extension].regs, req, handler)
    requires Play(OwnRuntime(host, req), turn.calls(handler, []), []).settled == Throws(Text(message))
    ensures Handle(host, Parsed(req), turn).1 == Some(ErrorReply(req.requestId, Message(message)))
  {
    InvokeRunsRegistered(OwnRuntime(host, req), req, req.call.name, handler, turn.calls);
    hide Play, RunMethod, Plays;
  }

  /** An error whose `message` is no string is answered with that message as it is, and
      a value that cannot be put into words with nothing at all. */
  lemma InvokeReportsOddly(host: Host, req: Request, handler: Handler, turn: Turn, thrown: Thrown)
    requires req.extension in host && req.storage.Some?
    requires Invokes(host[req.extension].regs, req, handler)
    requires Play(OwnRuntime(host, req), turn.calls(handler, []), []).settled == Throws(thrown)
    ensures var response := Handle(host, Parsed(req), turn).1;
      match thrown
      case Text(message) => response == Some(ErrorReply(req.requestId, Message(message)))
      case OddMessage(_, Some(value)) => response == Some(ErrorReply(req.requestId, MessageValue(value)))
      case OddMessage(_, None) => response == None
      case Unprintable(_) => response == None
  {
    InvokeRunsRegistered(OwnRuntime(host, req), req, req.call.name, handler, turn.calls);
    hide Play, RunMethod, Plays;
  }

  /** The error of a dispatch that a thrown value has ended: the complaint about its
      message, or whatever converting it threw. */
  lemma DispatchReportsOddly(host: Host, req: Request, kind: string, turn: Turn, p: Played)
    requires req.extension in host && req.storage.Some? && req.call == DispatchEvent(Some(kind))
    requires p in Plays(OwnRuntime(host, req), req, turn.calls) && p.settled.Throws?
    ensures var response := Handle(host, Parsed(req), turn).1;
      match p.settled.thrown
      case Text(_) => true
      case OddMessage(complaint, _) => response == Some(ErrorReply(req.requestId, Message(complaint)))
      case Unprintable(Text(message)) => response == Some(ErrorReply(req.requestId, Message(message)))
      case Unprintable(OddMessage(_, Some(value))) =>
        response == Some(ErrorReply(req.requestId, MessageValue(value)))
      case Unprintable(_) => response == None
  {
    var rt := OwnRuntime(host, req);
    var plays := Plays(rt, req, turn.calls);
    DispatchRunsSnapshot(rt, req, kind, turn.calls);
    if PlayStops(p) {
      var i :| 0 <= i < |plays| && plays[i] == p;
      assert p == plays[|plays| - 1];
    }
    hide Play, RunMethod, Plays, CalledAt;
  }

  /** So is a request whose activation throws such an error, and nothing is cached. */
  lemma ActivationReportsError(host: Host, req: Request, turn: Turn, message: string)
    requires req.extension !in host && req.storage.Some? && !req.call.Unsupported?
    requires || turn.load == ImportFails(Text(message))
             || (turn.load.Activates? && Activation(req, turn.load.callback).settled == Throws(Text(message)))
    ensures Handle(host, Parsed(req), turn) == (host, Some(ErrorReply(req.requestId, Message(message))))
  {
    hide Play;
  }

  /** A dispatch in which every call settles in a way that can be put into words is
      answered with no result, the request's storage as the calls left it, exactly the
      views they published, the effect they applied, and the errors they threw. */
  lemma DispatchReplies(host: Host, req: Request, kind: string, turn: Turn)
    requires req.extension in host && req.storage.Some? && turn.unserialisable.None?
    requires req.call == DispatchEvent(Some(kind))
    requires forall p :: p in Plays(OwnRuntime(host, req), req, turn.calls) ==> !PlayStops(p)
    ensures var plays := Plays(OwnRuntime(host, req), req, turn.calls); var ops := OpsOf(plays);
      var (after, response) := Handle(host, Parsed(req), turn);
      && response == Some(Reply(req.requestId, Null, Stored(req.storage.value, ops), Published(ops),
                                OwnEffects(req, ops), Some(Errors(plays))))
      && after == host[req.extension := Before(OwnRuntime(host, req), plays, |plays|)]
  {
    var rt := OwnRuntime(host, req);
    DispatchRunsSnapshot(rt, req, kind, turn.calls);
    RunMethodIsPerform(rt, req, turn.calls);
    LeavesOwnData(rt, OpsOf(Plays(rt, req, turn.calls)));
    hide RunMethod, Plays, Perform, Stored, Published, FirstEffect, OpsOf, PlayStops, Errors;
  }

  /** A reported error is the message, up to its first 1024 characters. */
  lemma CutIsStart(message: string)
    ensures Cut(message) <= message
    ensures |Cut(message)| == if |message| < 1024 then |message| else 1024
  {}

  // ---- whom a request calls ----

  /** What this line makes the extension do, if it is served. */
  function DoneAt(host: Host, frame: Parsed, turn: Turn, extension: string): seq<Op> {
    if !frame.Parsed? || frame.request.call.Unsupported? || frame.request.extension != extension
       || frame.request.storage.None? then []
    else
      var req := frame.request;
      if extension in host then OpsOf(Plays(OwnRuntime(host, req), req, turn.calls))
      else if !turn.load.Activates? || Activation(req, turn.load.callback).settled.Throws? then []
      else
        var activation := Activation(req, turn.load.callback);
        activation.ops + OpsOf(Plays(activation.runtime, req, turn.calls))
  }

  /** All the operations of an extension's activation and of its callbacks since. A
      failed activation leaves none. */
  function Done(lines: seq<string>, parse: Parser, turns: nat -> Turn, extension: string): seq<Op>
    decreases |lines|
  {
    if lines == [] then [] else
    var last := |lines| - 1;
    var before := Serve(lines[..last], parse, turns);
    Done(lines[..last], parse, turns, extension)
    + if before.alive then DoneAt(before.host, parse(lines[last]), turns(last), extension) else []
  }

  /** The registrations that these operations come to. */
  function RegistrationsOf(ops: seq<Op>): Registrations {
    Perform(Runtime(EmptyRegistrations(), Data(map[], [], None, None, [])), ops).0.regs
  }

  /** What these operations are told of registrations. */
  function AnswersTo(ops: seq<Op>): seq<Answer> {
    Perform(Runtime(EmptyRegistrations(), Data(map[], [], None, None, [])), ops).1
  }

  lemma RegistrationsGrow(rt: Runtime, done: seq<Op>, ops: seq<Op>)
    requires rt.regs == RegistrationsOf(done)
    ensures Perform(rt, ops).0.regs == RegistrationsOf(done + ops)
  {
    var nothing := Data(map[], [], None, None, []);
    var start := Runtime(EmptyRegistrations(), nothing);
    PerformJoins(start, done, ops);
    RegistrationsAlone(rt, Perform(start, done).0.data, ops);
    hide Perform;
  }

  lemma HandleDoes(host: Host, frame: Parsed, turn: Turn, extension: string, done: seq<Op>)
    requires if extension in host then host[extension].regs == RegistrationsOf(done) else done == []
    ensures var after := Handle(host, frame, turn).0; var all := done + DoneAt(host, frame, turn, extension);
      if extension in after then after[extension].regs == RegistrationsOf(all) else all == []
  {
    if frame.Parsed? && !frame.request.call.Unsupported? && frame.request.storage.Some? {
      var req := frame.request;
      if req.extension != extension {
        assert done + [] == done;
        OtherExtensionsUntouched(host, req, turn, extension);
      } else if RuntimeFor(host, req, turn.load).Good? {
        HandleDoesOwn(host, req, turn, done);
      } else {
        assert done + [] == done;
      }
    } else {
      assert done + [] == done;
    }
  }

  lemma HandleDoesOwn(host: Host, req: Request, turn: Turn, done: seq<Op>)
    requires !req.call.Unsupported? && req.storage.Some? && RuntimeFor(host, req, turn.load).Good?
    requires if req.extension in host then host[req.extension].regs == RegistrationsOf(done) else done == []
    ensures var after := Handle(host, Parsed(req), turn).0;
      && req.extension in after
      && after[req.extension].regs == RegistrationsOf(done + DoneAt(host, Parsed(req), turn, req.extension))
  {
    var rt := RuntimeFor(host, req, turn.load).value[req.extension];
    var ops := OpsOf(Plays(rt, req, turn.calls));
    RunMethodIsPerform(rt, req, turn.calls);
    HandleKeepsRuntime(host, req, turn);
    if req.extension in host {
      RegistrationsGrow(rt, done, ops);
    } else {
      ActivationDoes(host, req, turn);
    }
    hide Perform, Play, Handle, RunMethod, Plays, OpsOf, RegistrationsOf;
  }

  lemma HandleKeepsRuntime(host: Host, req: Request, turn: Turn)
    requires !req.call.Unsupported? && req.storage.Some? && RuntimeFor(host, req, turn.load).Good?
    ensures var rt := RuntimeFor(host, req, turn.load).value[req.extension];
      var after := Handle(host, Parsed(req), turn).0;
      req.extension in after && after[req.extension] == RunMethod(rt, req, turn.calls).0
  {
    hide RunMethod, Play;
  }

  lemma ActivationDoes(host: Host, req: Request, turn: Turn)
    requires !req.call.Unsupported? && req.storage.Some? && RuntimeFor(host, req, turn.load).Good?
    requires req.extension !in host
    ensures var rt := RuntimeFor(host, req, turn.load).value[req.extension];
      var all := DoneAt(host, Parsed(req), turn, req.extension);
      Perform(rt, OpsOf(Plays(rt, req, turn.calls))).0.regs == RegistrationsOf(all) == RegistrationsOf([] + all)
  {
    var activation := Activation(req, turn.load.callback);
    var ops := OpsOf(Plays(activation.runtime, req, turn.calls));
    PlayPerforms(Fresh(req), turn.load.callback, []);
    StartsEmpty(Fresh(req));
    hide RegistrationsOf, Plays, OpsOf, Perform, Play;
    RegistrationsGrow(Fresh(req), [], activation.ops);
    assert [] + activation.ops == activation.ops;
    RegistrationsGrow(activation.runtime, activation.ops, ops);
    assert [] + (activation.ops + ops) == activation.ops + ops;
  }

  lemma StartsEmpty(rt: Runtime)
    requires rt.regs == EmptyRegistrations()
    ensures rt.regs == RegistrationsOf([])
  {}

  /** Over every run, what a cached runtime has registered comes from the operations
      of its own activation and callbacks alone, all of them. */
  lemma {:induction false} RegistrationsAreDone(lines: seq<string>, parse: Parser, turns: nat -> Turn,
                                                extension: string)
    ensures var host := Serve(lines, parse, turns).host; var done := Done(lines, parse, turns, extension);
      if extension in host then host[extension].regs == RegistrationsOf(done) else done == []
    decreases |lines|
  {
    if lines != [] {
      var last := |lines| - 1;
      var before := Serve(lines[..last], parse, turns);
      var done := Done(lines[..last], parse, turns, extension);
      RegistrationsAreDone(lines[..last], parse, turns, extension);
      assert done + [] == done;
      HandleDoes(before.host, parse(lines[last]), turns(last), extension, done);
      hide Handle, DoneAt, RegistrationsOf;
    }
  }

  /** Over every run, a dispatch calls exactly the handlers of the `on` operations,
      since the extension's activation, that were granted and not disposed of since,
      in the order of those operations. */
  lemma DispatchCallsSubscribers(lines: seq<string>, parse: Parser, turns: nat -> Turn, req: Request, kind: string)
    requires req.extension in Serve(lines, parse, turns).host && req.call == DispatchEvent(Some(kind))
    ensures var ops := Done(lines, parse, turns, req.extension);
      var answers := AnswersTo(ops);
      && |answers| == |ops|
      && Callees(Serve(lines, parse, turns).host[req.extension].regs, req)
           == Handlers(OfKind(Standing(ops, answers, |ops|), kind))
  {
    RegistrationsAreDone(lines, parse, turns, req.extension);
    LiveIsStanding(Data(map[], [], None, None, []), Done(lines, parse, turns, req.extension));
    hide Perform, Standing, Serve, Done, OfKind;
  }

  /** And an action or tool request calls the handler that the first such operation
      for its name registered. */
  lemma InvokeCallsFirstRegistered(lines: seq<string>, parse: Parser, turns: nat -> Turn, req: Request)
    requires req.extension in Serve(lines, parse, turns).host && (req.call.InvokeAction? || req.call.InvokeTool?)
    ensures var ops := Done(lines, parse, turns, req.extension);
      Callees(Serve(lines, parse, turns).host[req.extension].regs, req)
        == (if req.call.InvokeAction? then HandlerSeq(FirstAction(ops, req.call.name))
            else HandlerSeq(FirstTool(ops, req.call.name)))
  {
    RegistrationsAreDone(lines, parse, turns, req.extension);
    FirstRegistrationHolds(Data(map[], [], None, None, []), Done(lines, parse, turns, req.extension), req.call.name);
    hide Perform, FirstAction, FirstTool, Serve, Done;
  }

  function HandlerSeq(handler: Option<Handler>): seq<Handler> { if handler.Some? then [handler.value] else [] }
}
