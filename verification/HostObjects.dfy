/** The extension host as objects: runtimes whose fields the context operations
    change in place, the cache that reuses them, and the loop over the input. The
    methods are proved to do exactly what `HostRuntime` and `HostProtocol` say. */
module HostObjects {
  import opened Basics
  import opened HostRuntime
  import opened HostEvents
  import P = HostProtocol
  import F = HostFraming

  class ExtensionRuntime {
    const events: EventRegistry
    var actions: map<string, Handler>
    var tools: map<string, Handler>
    var storage: map<string, Value>
    var publishedViews: seq<View>
    var threadSummaries: Option<seq<string>>
    var ownedAutomations: Option<seq<string>>
    var automationEffects: seq<Effect>

    ghost function Data(): HostRuntime.Data
      reads this
    {
      HostRuntime.Data(storage, publishedViews, threadSummaries, ownedAutomations, automationEffects)
    }

    ghost function View(): Runtime
      reads this, events
    {
      Runtime(Registrations(actions, tools, events.live, events.nextEventHandlerId), Data())
    }

    ghost function Repr(): set<object>
      reads this, events
    {
      {this, events} + events.Repr
    }

    ghost predicate Valid()
      reads this, events, events.Repr
    {
      this !in events.Repr && events.Valid()
    }

    constructor (data: HostRuntime.Data)
      ensures Valid() && fresh(Repr())
      ensures View() == Runtime(EmptyRegistrations(), data)
    {
      events := new EventRegistry();
      actions, tools := map[], map[];
      storage, publishedViews, automationEffects := data.storage, data.views, data.effects;
      threadSummaries, ownedAutomations := data.threads, data.automations;
    }

    /** What a cached runtime gets at the start of each request. */
    method Reset(data: HostRuntime.Data)
      requires Valid()
      modifies this
      ensures Valid() && Repr() == old(Repr())
      ensures View() == Runtime(old(View()).regs, data)
    {
      storage, publishedViews, automationEffects := data.storage, data.views, data.effects;
      threadSummaries, ownedAutomations := data.threads, data.automations;
    }

    method Register(op: Op) returns (answer: Answer)
      requires Valid() && IsRegistration(op)
      modifies Repr()
      ensures Valid() && fresh(Repr() - old(Repr()))
      ensures Data() == old(Data())
      ensures (View().regs, answer) == HostRuntime.Register(old(View()).regs, op)
    {
      hide RegistryOk, OfKind, Without;
      match op {
        case RegisterAction(name, handler) =>
          if name in actions { return Refused(ActionTaken); }
          actions := actions[name := handler];
          answer := Done;
        case RegisterTool(name, handler) =>
          if name in tools { return Refused(ToolTaken); }
          tools := tools[name := handler];
          answer := Done;
        case On(kind, handler) =>
          answer := events.On(kind, handler);
        case Dispose(id) =>
          events.Dispose(id);
          answer := Done;
      }
    }

    method Effectuate(op: Op) returns (answer: Answer)
      requires Valid() && !IsRegistration(op)
      modifies this
      ensures Valid() && Repr() == old(Repr())
      ensures View().regs == old(View()).regs
      ensures (Data(), answer) == HostRuntime.Effectuate(old(Data()), op)
    {
      answer := Done;
      match op {
        case Get(key, fallback) => answer := Got(if key in storage then storage[key] else fallback);
        case Set(key, value) => storage := storage[key := value];
        case Delete(key) => storage := storage - {key};
        case Publish(view) => publishedViews := publishedViews + [view];
        case PublishSuggestions(viewId, threadId, suggestions) =>
          publishedViews := publishedViews + [ThreadView(viewId, threadId, suggestions)];
        case ClearSuggestions(viewId, threadId) =>
          publishedViews := publishedViews + [ThreadView(viewId, threadId, Json("{\"actions\":[]}"))];
        case ListThreads =>
          answer := if threadSummaries.None? then Refused(ThreadsNotGranted) else Listed(threadSummaries.value);
        case ListAutomations =>
          answer := if ownedAutomations.None? then Refused(AutomationsNotGranted) else Listed(ownedAutomations.value);
        case Apply(proposal) =>
          if ownedAutomations.None? { return Refused(AutomationsNotGranted); }
          if proposal.Malformed? { return Refused(MalformedEffect); }
          if |automationEffects| >= 1 { return Refused(SecondEffect); }
          if proposal.Uncloneable? { return Refused(UncloneableEffect); }
          automationEffects := automationEffects + [proposal.effect];
      }
    }

    /** One context operation. */
    method Step(op: Op) returns (answer: Answer)
      requires Valid()
      modifies Repr()
      ensures Valid() && fresh(Repr() - old(Repr()))
      ensures (View(), answer) == HostRuntime.Step(old(View()), op)
    {
      hide HostRuntime.Register, HostRuntime.Effectuate;
      if IsRegistration(op) {
        answer := Register(op);
      } else {
        answer := Effectuate(op);
      }
    }

    /** Running a callback: its operations one after the other, each chosen on the
        answers to those before it, until it settles. */
    method Play(callback: Callback) returns (answers: seq<Answer>, settled: Settled)
      requires Valid()
      modifies Repr()
      ensures Valid() && fresh(Repr() - old(Repr()))
      ensures var p := HostRuntime.Play(old(View()), callback, []);
        View() == p.runtime && answers == p.answers && settled == p.settled
    {
      hide HostRuntime.Step, HostRuntime.Play, RegistryOk, Valid, View;
      answers := [];
      ghost var whole := HostRuntime.Play(View(), callback, []);
      assert [] + whole.answers == whole.answers;
      while callback.act(answers).Do?
        invariant Valid() && fresh(Repr() - old(Repr())) && |answers| <= callback.limit
        invariant var rest := HostRuntime.Play(View(), callback, answers);
          rest.runtime == whole.runtime && rest.settled == whole.settled && answers + rest.answers == whole.answers
        decreases callback.limit - |answers|
      {
        PlayUnfolds(View(), callback, answers);
        var answer := Step(callback.act(answers).op);
        ghost var rest := HostRuntime.Play(View(), callback, answers + [answer]).answers;
        assert answers + ([answer] + rest) == answers + [answer] + rest;
        answers := answers + [answer];
      }
      settled := callback.act(answers).settled;
      PlayEnds(View(), callback, answers);
      assert answers + [] == answers;
    }

    method Snapshot(kind: string) returns (handlers: seq<Entry>)
      requires Valid()
      ensures handlers == OfKind(View().regs.live, kind)
    {
      assert kind in TableContents(events.eventHandlers) <==> kind in events.eventHandlers;
      handlers := if kind in events.eventHandlers then events.eventHandlers[kind].entries else [];
    }

    /** `dispatchEvent`'s loop over a copy of the type's handlers. A thrown value that
        cannot be put into words ends it. */
    method Dispatch(kind: string, calls: P.Calls) returns (outcome: P.Attempt<seq<string>>)
      requires Valid()
      modifies Repr()
      ensures Valid() && fresh(Repr() - old(Repr()))
      ensures (View(), outcome) == P.RunHandlers(old(View()), OfKind(old(View()).regs.live, kind), 0, [], calls)
    {
      hide RegistryOk, OfKind, HostRuntime.Play, Valid, View, P.Noted;
      var snapshot := Snapshot(kind);
      var heard: seq<seq<Answer>> := [];
      var errors: seq<string> := [];
      ghost var whole := P.RunHandlers(View(), snapshot, 0, [], calls);
      AfterNothing(errors, whole);
      for k := 0 to |snapshot|
        invariant Valid() && fresh(Repr() - old(Repr()))
        invariant After(errors, P.RunHandlers(View(), snapshot, k, heard, calls)) == whole
      {
        var answers, settled := Play(calls(snapshot[k].handler, heard));
        heard := heard + [answers];
        if settled.Throws? && P.Stops(settled.thrown) {
          return P.Bad(P.Threw(P.Rethrown(settled.thrown)));
        }
        AfterNoted(errors, settled, P.RunHandlers(View(), snapshot, k + 1, heard, calls));
        if settled.Throws? { errors := errors + [P.Cut(settled.thrown.message)]; }
      }
      assert errors + [] == errors;
      outcome := P.Good(errors);
    }
  }

  /** The end of a loop that has noted these errors so far. */
  ghost function After(errors: seq<string>, rest: (Runtime, P.Attempt<seq<string>>))
    : (Runtime, P.Attempt<seq<string>>)
  {
    (rest.0, if rest.1.Good? then P.Good(errors + rest.1.value) else rest.1)
  }

  lemma AfterNothing(errors: seq<string>, rest: (Runtime, P.Attempt<seq<string>>))
    ensures errors == [] ==> After(errors, rest) == rest
  {
    if errors == [] && rest.1.Good? { assert errors + rest.1.value == rest.1.value; }
  }

  lemma AfterNoted(errors: seq<string>, settled: Settled, rest: (Runtime, P.Attempt<seq<string>>))
    requires settled.Throws? ==> settled.thrown.Text?
    ensures After(errors, (rest.0, P.Noted(settled, rest.1)))
         == After(if settled.Throws? then errors + [P.Cut(settled.thrown.message)] else errors, rest)
  {
    if settled.Throws? && rest.1.Good? {
      var cut := P.Cut(settled.thrown.message);
      assert errors + ([cut] + rest.1.value) == errors + [cut] + rest.1.value;
    }
  }

  /** No object belongs to two extensions. */
  ghost predicate Apart(parts: map<string, set<object>>) {
    forall e, d :: e in parts && d in parts && e != d ==> parts[e] !! parts[d]
  }

  lemma ApartAfter(parts: map<string, set<object>>, e: string, part: set<object>)
    requires Apart(parts)
    requires forall d, x :: d in parts && d != e && x in parts[d] ==> x !in part
    ensures Apart(parts[e := part])
  {}

  lemma NoLinesYet(served: seq<string>, lines: seq<string>)
    ensures served + F.NonBlank(lines[..0]) == served
  {}

  lemma OneLineFurther(served: seq<string>, lines: seq<string>, j: nat)
    requires j < |lines|
    ensures served + F.NonBlank(lines[..j]) + F.NonBlank([lines[j]]) == served + F.NonBlank(lines[..j + 1])
  {
    F.NonBlankUpTo(lines, j);
    hide F.NonBlank;
  }

  /** Lines after the end of the process do not matter. */
  lemma RestUnserved(served: seq<string>, lines: seq<string>, n: nat, parse: P.Parser, turns: nat -> P.Turn)
    requires 0 < n <= |lines| && !P.Serve(served + F.NonBlank(lines[..n]), parse, turns).alive
    ensures P.Serve(served + F.NonBlank(lines), parse, turns) == P.Serve(served + F.NonBlank(lines[..n]), parse, turns)
  {
    F.NonBlankUpTo(lines, n - 1);
    hide F.NonBlank, P.Serve;
    var done, more := served + F.NonBlank(lines[..n]), F.NonBlank(lines[n..]);
    P.DeadStaysDead(done, more, parse, turns);
    assert done + more == served + F.NonBlank(lines);
  }

  class Host {
    var runtimes: map<string, ExtensionRuntime>
    var inputBuffer: string
    var output: seq<P.Response>   // the frames written to standard output
    ghost var parts: map<string, set<object>>   // the objects of each runtime
    ghost var Repr: set<object>

    ghost predicate Owns(r: ExtensionRuntime, part: set<object>)
      reads this, r, r.events, r.events.Repr
    {
      r.Repr() == part && part <= Repr && this !in part && r.Valid()
    }

    ghost predicate Valid()
      reads this, Repr
    {
      && this in Repr && parts.Keys == runtimes.Keys && Apart(parts)
      && (forall e :: e in runtimes ==> runtimes[e] in Repr && runtimes[e].events in Repr
                                        && runtimes[e].events.Repr <= Repr && Owns(runtimes[e], parts[e]))
    }

    ghost function View(): P.Host
      reads this, Repr
      requires Valid()
    {
      map e | e in runtimes :: runtimes[e].View()
    }

    constructor ()
      ensures Valid() && fresh(Repr) && View() == map[] && output == [] && inputBuffer == ""
    {
      runtimes, inputBuffer, output, parts := map[], "", [], map[];
      Repr := {this};
    }

    /** The objects of one runtime belong to no other. */
    lemma OneOwner(extension: string)
      requires Valid() && extension in runtimes
      ensures runtimes[extension].Valid() && runtimes[extension].Repr() == parts[extension]
      ensures forall e, x :: e in parts && x in parts[e] ==> x in Repr && x != this
      ensures forall e, x :: e in parts && e != extension && x in parts[e] ==> x !in parts[extension]
    {
      hide RegistryOk, ExtensionRuntime.Valid;
      forall e, x | e in parts && x in parts[e] ensures x in Repr && x != this {
        assert Owns(runtimes[e], parts[e]);
      }
      forall e, x | e in parts && e != extension && x in parts[e] ensures x !in parts[extension] {
        assert parts[e] !! parts[extension];
      }
    }

    /** Notes the objects that a runtime's work has added. */
    ghost method Settle(extension: string)
      requires extension in runtimes
      requires var r := runtimes[extension]; r.Valid() && this !in r.Repr()
      modifies `parts, `Repr
      ensures parts == old(parts)[extension := runtimes[extension].Repr()]
      ensures Repr == old(Repr) + runtimes[extension].Repr()
      ensures var r := runtimes[extension]; r.Valid() && r.Repr() == old(r.Repr()) && r.View() == old(r.View())
    {
      hide RegistryOk;
      parts := parts[extension := runtimes[extension].Repr()];
      Repr := Repr + runtimes[extension].Repr();
    }

    twostate lemma Untouched(r: ExtensionRuntime)
      requires old(r.Valid()) && forall x :: x in old(r.Repr()) ==> unchanged(x)
      ensures r.Repr() == old(r.Repr()) && r.Valid() && r.View() == old(r.View())
    {
      hide RegistryOk;
      assert r in old(r.Repr()) && r.events in old(r.Repr());
    }

    twostate lemma OthersUntouched(extension: string)
      requires old(Valid()) && old(Repr) <= Repr
      requires forall e, x :: e in old(parts) && e != extension && x in old(parts)[e] ==> unchanged(x)
      ensures forall e :: e in old(runtimes) && e != extension ==>
        var r := old(runtimes)[e];
        r.Repr() <= Repr && Owns(r, old(parts)[e]) && r.View() == old(r.View())
    {
      hide RegistryOk, ExtensionRuntime.Valid, ExtensionRuntime.View, Apart;
      forall e | e in old(runtimes) && e != extension
        ensures var r := old(runtimes)[e];
          r.Repr() <= Repr && Owns(r, old(parts)[e]) && r.View() == old(r.View())
      {
        assert old(Owns(runtimes[e], parts[e]));
        Untouched(old(runtimes)[e]);
      }
    }

    /** Since the old state, only this extension's runtime was worked on. */
    twostate predicate TouchedOnly(extension: string)
      requires old(Valid())
      reads *
    {
      && extension in runtimes && runtimes == old(runtimes)[extension := runtimes[extension]]
      && runtimes[extension].Valid() && this !in runtimes[extension].Repr()
      && (forall x :: x in runtimes[extension].Repr() && x in old(Repr) ==>
            extension in old(parts) && x in old(parts)[extension])
      && Repr == old(Repr) + runtimes[extension].Repr()
      && parts == old(parts)[extension := runtimes[extension].Repr()]
      && (forall e, x :: e in old(parts) && e != extension && x in old(parts)[e] ==> unchanged(x))
    }

    /** Runtimes share nothing, so the host stays well formed. */
    twostate lemma StaysValid(extension: string)
      requires old(Valid()) && TouchedOnly(extension)
      ensures Valid()
    {
      hide RegistryOk, ExtensionRuntime.Valid, ExtensionRuntime.View;
      OthersUntouched(extension);
      var r := runtimes[extension];
      forall d, x | d in old(parts) && d != extension && x in old(parts)[d] ensures x !in r.Repr() {}
      ApartAfter(old(parts), extension, r.Repr());
      assert Owns(r, parts[extension]) && r.Repr() <= Repr;
      hide Apart, Owns;
      forall e | e in runtimes
        ensures runtimes[e].Repr() <= Repr && Owns(runtimes[e], parts[e])
      {
        assert e == extension || (e in old(runtimes) && runtimes[e] == old(runtimes)[e] && parts[e] == old(parts)[e]);
      }
    }

    /** And the work shows only in the extension's own entry. */
    twostate lemma ShowsOnlyThere(extension: string)
      requires old(Valid()) && TouchedOnly(extension)
      ensures Valid() && View() == old(View())[extension := runtimes[extension].View()]
    {
      hide RegistryOk, ExtensionRuntime.Valid, ExtensionRuntime.View, Apart;
      StaysValid(extension);
      OthersUntouched(extension);
    }

    /** The cached runtime, with the request's data. */
    method Reuse(req: P.Request) returns (existing: ExtensionRuntime)
      requires Valid() && req.storage.Some? && req.extension in runtimes
      modifies `runtimes, `parts, `Repr, Repr - {this}
      ensures Valid() && Repr == old(Repr)
      ensures req.extension in runtimes && existing == runtimes[req.extension]
      ensures View() == old(View())[req.extension := Runtime(old(View())[req.extension].regs, P.DataOf(req))]
    {
      hide RegistryOk;
      existing := runtimes[req.extension];
      OneOwner(req.extension);
      existing.Reset(P.DataOf(req));
      ShowsOnlyThere(req.extension);
    }

    method Cache(extension: string, runtime: ExtensionRuntime)
      requires Valid() && extension !in runtimes
      requires runtime.Valid() && forall x :: x in runtime.Repr() ==> x !in Repr
      modifies `runtimes, `parts, `Repr
      ensures Valid() && Repr == old(Repr) + runtime.Repr()
      ensures extension in runtimes && runtimes[extension] == runtime && runtime.View() == old(runtime.View())
      ensures View() == old(View())[extension := runtime.View()]
    {
      hide RegistryOk;
      runtimes := runtimes[extension := runtime];
      parts := parts[extension := runtime.Repr()];
      Repr := Repr + runtime.Repr();
      Untouched(runtime);
      ShowsOnlyThere(extension);
    }

    /** A runtime that is cached only if its activation succeeds. */
    method Activate(req: P.Request, callback: Callback) returns (settled: Settled)
      requires Valid() && req.storage.Some? && req.extension !in runtimes
      modifies `runtimes, `parts, `Repr, Repr - {this}
      ensures Valid() && fresh(Repr - old(Repr))
      ensures var activation := P.Activation(req, callback);
        && settled == activation.settled
        && (settled.Throws? ==> View() == old(View()))
        && (settled.Returns? ==>
              req.extension in runtimes && View() == old(View())[req.extension := activation.runtime])
    {
      hide RegistryOk, HostRuntime.Play, Valid, View, ExtensionRuntime.View, ExtensionRuntime.Valid;
      var runtime;
      runtime, settled := RunActivation(P.DataOf(req), callback);
      assert View() == old(View());
      if settled.Returns? {
        Cache(req.extension, runtime);
      }
    }

    /** `runtimeFor` */
    method RuntimeFor(req: P.Request, load: P.Load) returns (error: Option<P.Exception>)
      requires Valid()
      modifies `runtimes, `parts, `Repr, Repr - {this}
      ensures Valid() && fresh(Repr - old(Repr))
      ensures match P.RuntimeFor(old(View()), req, load)
        case Bad(e) => error == Some(e) && View() == old(View())
        case Good(host) => error == None && View() == host && req.extension in runtimes
    {
      hide RegistryOk, HostRuntime.Play;
      if req.storage.None? { return Some(P.Own(P.BadStorage)); }
      if req.extension in runtimes {
        var _ := Reuse(req);
        return None;
      }
      match load {
        case ImportFails(thrown) => return Some(P.Threw(thrown));
        case NotAnExtension => return Some(P.Own(P.NoActivate));
        case Activates(callback) =>
          var settled := Activate(req, callback);
          return if settled.Throws? then Some(P.Threw(settled.thrown)) else None;
      }
    }

    /** Running a callback on a cached runtime. */
    method Call(extension: string, callback: Callback) returns (settled: Settled)
      requires Valid() && extension in runtimes
      modifies `runtimes, `parts, `Repr, Repr - {this}
      ensures Valid() && fresh(Repr - old(Repr))
      ensures extension in runtimes
      ensures var p := HostRuntime.Play(old(View())[extension], callback, []);
        settled == p.settled && View() == old(View())[extension := p.runtime]
    {
      hide RegistryOk, HostRuntime.Play, Apart, Owns;
      var runtime := runtimes[extension];
      OneOwner(extension);
      hide Valid, ExtensionRuntime.Valid, ExtensionRuntime.View;
      var _, how := runtime.Play(callback);
      settled := how;
      Settle(extension);
      ShowsOnlyThere(extension);
    }

    /** Dispatching an event on a cached runtime. */
    method Dispatch(extension: string, kind: string, calls: P.Calls) returns (outcome: P.Attempt<seq<string>>)
      requires Valid() && extension in runtimes
      modifies `runtimes, `parts, `Repr, Repr - {this}
      ensures Valid() && fresh(Repr - old(Repr))
      ensures extension in runtimes
      ensures var rt := old(View())[extension];
        var (after, result) := P.RunHandlers(rt, OfKind(rt.regs.live, kind), 0, [], calls);
        outcome == result && View() == old(View())[extension := after]
    {
      hide RegistryOk, OfKind, P.RunHandlers;
      var runtime := runtimes[extension];
      OneOwner(extension);
      hide Valid, Apart, Owns, ExtensionRuntime.Valid, ExtensionRuntime.View;
      outcome := runtime.Dispatch(kind, calls);
      Settle(extension);
      ShowsOnlyThere(extension);
    }

    /** The reply is read off the runtime's fields after the callback. */
    method Reply(req: P.Request, result: Value, errors: Option<seq<string>>) returns (reply: P.Response)
      requires Valid() && req.extension in runtimes
      ensures reply == P.ReplyFrom(req, View()[req.extension], result, errors)
    {
      hide RegistryOk;
      var r := runtimes[req.extension];
      reply := P.Response.Reply(req.requestId, result, r.storage, r.publishedViews, r.automationEffects, errors);
    }

    lemma InView(extension: string)
      requires Valid() && extension in runtimes
      ensures extension in View() && View()[extension := View()[extension]] == View()
    {
      hide RegistryOk, ExtensionRuntime.Valid, ExtensionRuntime.View, Apart, Owns;
    }

    /** `invoke`, `invokeTool` and `dispatchEvent`, on the runtime at hand. */
    method RunMethod(req: P.Request, calls: P.Calls) returns (attempt: P.Attempt<P.Response>)
      requires Valid() && req.extension in runtimes
      modifies `runtimes, `parts, `Repr, Repr - {this}
      ensures Valid() && fresh(Repr - old(Repr))
      ensures req.extension in runtimes
      ensures var (after, a) := P.RunMethod(old(View())[req.extension], req, calls);
        attempt == a && View() == old(View())[req.extension := after]
    {
      hide RegistryOk, P.RunMethod, Valid, View;
      match req.call {
        case InvokeAction(_) => attempt := RunNamed(req, calls);
        case InvokeTool(_) => attempt := RunNamed(req, calls);
        case DispatchEvent(kind) =>
          if kind.None? { attempt := Refuse(req, calls); } else { attempt := RunEvent(req, kind.value, calls); }
        case Unsupported => attempt := Refuse(req, calls);
      }
    }

    method RunNamed(req: P.Request, calls: P.Calls) returns (attempt: P.Attempt<P.Response>)
      requires Valid() && req.extension in runtimes && (req.call.InvokeAction? || req.call.InvokeTool?)
      modifies `runtimes, `parts, `Repr, Repr - {this}
      ensures Valid() && fresh(Repr - old(Repr)) && req.extension in runtimes
      ensures var (after, a) := P.RunMethod(old(View())[req.extension], req, calls);
        attempt == a && View() == old(View())[req.extension := after]
    {
      hide RegistryOk, P.RunCallback, Valid, View;
      var handler;
      match req.call {
        case InvokeAction(name) => handler := FindAction(req.extension, name);
        case InvokeTool(name) => handler := FindTool(req.extension, name);
      }
      attempt := RunCallback(req, handler, calls);
    }

    /** A request that calls nothing. */
    method Refuse(req: P.Request, calls: P.Calls) returns (attempt: P.Attempt<P.Response>)
      requires Valid() && req.extension in runtimes
      requires req.call.Unsupported? || req.call == P.DispatchEvent(None)
      ensures var (after, a) := P.RunMethod(View()[req.extension], req, calls);
        attempt == a && View() == View()[req.extension := after]
    {
      InView(req.extension);
      hide RegistryOk, Valid, View;
      attempt := P.Bad(P.Own(if req.call.Unsupported? then P.UnsupportedMethod else P.NoEvent));
    }

    method RunEvent(req: P.Request, kind: string, calls: P.Calls) returns (attempt: P.Attempt<P.Response>)
      requires Valid() && req.extension in runtimes && req.call == P.DispatchEvent(Some(kind))
      modifies `runtimes, `parts, `Repr, Repr - {this}
      ensures Valid() && fresh(Repr - old(Repr)) && req.extension in runtimes
      ensures var (after, a) := P.RunMethod(old(View())[req.extension], req, calls);
        attempt == a && View() == old(View())[req.extension := after]
    {
      hide RegistryOk, OfKind, P.RunHandlers, Valid, View;
      var outcome := Dispatch(req.extension, kind, calls);
      match outcome {
        case Bad(e) => attempt := P.Bad(e);
        case Good(errors) =>
          var reply := Reply(req, Null, Some(errors));
          attempt := P.Good(reply);
      }
    }

    method FindAction(extension: string, name: string) returns (handler: Option<Handler>)
      requires Valid() && extension in runtimes
      ensures handler == P.Lookup(View()[extension].regs.actions, name)
    {
      hide RegistryOk;
      handler := if name in runtimes[extension].actions then Some(runtimes[extension].actions[name]) else None;
    }

    method FindTool(extension: string, name: string) returns (handler: Option<Handler>)
      requires Valid() && extension in runtimes
      ensures handler == P.Lookup(View()[extension].regs.tools, name)
    {
      hide RegistryOk;
      handler := if name in runtimes[extension].tools then Some(runtimes[extension].tools[name]) else None;
    }

    method RunCallback(req: P.Request, handler: Option<Handler>, calls: P.Calls)
      returns (attempt: P.Attempt<P.Response>)
      requires Valid() && req.extension in runtimes
      modifies `runtimes, `parts, `Repr, Repr - {this}
      ensures Valid() && fresh(Repr - old(Repr))
      ensures req.extension in runtimes
      ensures var (after, a) := P.RunCallback(old(View())[req.extension], req, handler, calls);
        attempt == a && View() == old(View())[req.extension := after]
    {
      hide RegistryOk, HostRuntime.Play, Valid, View;
      if handler.None? {
        InView(req.extension);
        return P.Bad(P.Own(P.Missing));
      }
      var settled := Call(req.extension, calls(handler.value, []));
      match settled {
        case Throws(thrown) => attempt := P.Bad(P.Threw(thrown));
        case Returns(value) =>
          var reply := Reply(req, P.OrNull(value), None);
          attempt := P.Good(reply);
      }
    }

    /** `handleLine` for one frame: what it writes, or nothing if the exception leaves
        it. */
    method Respond(frame: P.Parsed, turn: P.Turn) returns (response: Option<P.Response>)
      requires Valid()
      modifies `runtimes, `parts, `Repr, Repr - {this}
      ensures Valid() && fresh(Repr - old(Repr))
      ensures (View(), response) == P.Handle(old(View()), frame, turn)
    {
      hide RegistryOk, P.RunMethod, P.RuntimeFor, P.Catch, Valid, View;
      if frame.NotJson? { return Some(P.ErrorReply(Some(0), P.BadJson)); }
      if frame.NullFrame? { return Some(P.ErrorReply(Some(0), P.BadFrame)); }
      var req := frame.request;
      if req.call.Unsupported? { return Some(P.ErrorReply(req.requestId, P.UnsupportedMethod)); }
      var error := RuntimeFor(req, turn.load);
      if error.Some? { return P.Catch(req.requestId, error.value); }
      var attempt := RunMethod(req, turn.calls);
      response := P.Write(req, attempt, turn.unserialisable);
    }

    /** What has been cached and written, and whether the process is still there, is
        what serving these lines gives. */
    ghost predicate HasServed(lines: seq<string>, parse: P.Parser, turns: nat -> P.Turn, alive: bool)
      reads this, Repr
      requires Valid()
    {
      P.Served(View(), output, alive) == P.Serve(lines, parse, turns)
    }

    /** `handleLine`: blank lines are skipped; every other line is answered by
        exactly one frame, or ends the process. */
    method HandleLine(line: string, parse: P.Parser, turns: nat -> P.Turn, ghost served: seq<string>)
      returns (alive: bool)
      requires Valid() && HasServed(served, parse, turns, true)
      modifies `runtimes, `parts, `Repr, `output, Repr - {this}
      ensures Valid() && fresh(Repr - old(Repr))
      ensures HasServed(served + F.NonBlank([line]), parse, turns, alive)
    {
      F.NonBlankOfOne(line);
      hide RegistryOk, P.Handle, P.Serve, F.NonBlank, F.Blank, Valid, View;
      assert served + [] == served;
      if F.Blank(line) { return true; }
      P.ServeOneMore(served, line, parse, turns);
      var response := Respond(parse(line), turns(|output|));
      if response.None? { return false; }
      Write(response.value);
      alive := true;
    }

    method Write(response: P.Response)
      requires Valid()
      modifies `output
      ensures Valid() && View() == old(View()) && output == old(output) + [response]
    {
      hide RegistryOk, Apart, ExtensionRuntime.Valid, ExtensionRuntime.View;
      output := output + [response];
    }

    /** One turn of the input loop. `seen` is the text read so far. */
    method Feed(chunk: string, parse: P.Parser, turns: nat -> P.Turn, ghost seen: string) returns (alive: bool)
      requires Valid() && inputBuffer == F.Open(seen) && HasServed(F.NonBlank(F.Complete(seen)), parse, turns, true)
      modifies this, Repr
      ensures Valid() && fresh(Repr - old(Repr))
      ensures inputBuffer == F.Open(seen + chunk)
      ensures HasServed(F.NonBlank(F.Complete(seen + chunk)), parse, turns, alive)
    {
      hide RegistryOk, P.Serve, Valid, View;
      F.BufferStep(seen, chunk);
      var lines := F.Split(inputBuffer + chunk);
      SetBuffer(lines[|lines| - 1]);
      alive := HandleLines(lines[..|lines| - 1], parse, turns, F.NonBlank(F.Complete(seen)));
    }

    method HandleLines(lines: seq<string>, parse: P.Parser, turns: nat -> P.Turn, ghost served: seq<string>)
      returns (alive: bool)
      requires Valid() && HasServed(served, parse, turns, true)
      modifies `runtimes, `parts, `Repr, `output, Repr - {this}
      ensures Valid() && fresh(Repr - old(Repr))
      ensures HasServed(served + F.NonBlank(lines), parse, turns, alive)
    {
      hide RegistryOk, P.Serve, F.NonBlank, Valid, View;
      NoLinesYet(served, lines);
      for j := 0 to |lines|
        invariant Valid() && fresh(Repr - old(Repr))
        invariant HasServed(served + F.NonBlank(lines[..j]), parse, turns, true)
      {
        OneLineFurther(served, lines, j);
        var goesOn := HandleLine(lines[j], parse, turns, served + F.NonBlank(lines[..j]));
        if !goesOn {
          RestUnserved(served, lines, j + 1, parse, turns);
          return false;
        }
      }
      assert lines[..|lines|] == lines;
      alive := true;
    }

    method SetBuffer(rest: string)
      requires Valid()
      modifies `inputBuffer
      ensures Valid() && View() == old(View()) && inputBuffer == rest
    {
      hide RegistryOk, Apart, ExtensionRuntime.Valid, ExtensionRuntime.View;
      inputBuffer := rest;
    }
  }

  /** Chunks that were not read do not matter. */
  lemma EndedEarly(chunks: seq<string>, n: nat, flush: string, parse: P.Parser, turns: nat -> P.Turn)
    requires n <= |chunks|
    requires !P.Serve(F.NonBlank(F.Complete(F.Concat(chunks[..n]))), parse, turns).alive
    ensures P.Serve(F.Requests(F.Concat(chunks) + flush), parse, turns)
         == P.Serve(F.NonBlank(F.Complete(F.Concat(chunks[..n]))), parse, turns)
  {
    hide F.Concat, F.Requests, F.NonBlank, F.Complete, F.Open, P.Serve;
    var seen, rest := F.Concat(chunks[..n]), F.Concat(chunks[n..]) + flush;
    F.ConcatJoins(chunks[..n], chunks[n..]);
    assert chunks == chunks[..n] + chunks[n..];
    assert F.Concat(chunks) + flush == seen + rest;
    F.RequestsContinue(seen, rest);
    P.DeadStaysDead(F.NonBlank(F.Complete(seen)), F.Requests(F.Open(seen) + rest), parse, turns);
  }

  /** The process: whatever the chunks, standard output is the run over the
      non-blank lines of the whole input, an unterminated last line included. */
  method RunHost(chunks: seq<string>, flush: string, parse: P.Parser, turns: nat -> P.Turn)
    returns (output: seq<P.Response>, alive: bool)
    requires '\n' !in flush
    ensures var served := P.Serve(F.Requests(F.Concat(chunks) + flush), parse, turns);
      output == served.output && alive == served.alive
  {
    var host := new Host();
    alive := true;
    for i := 0 to |chunks|
      invariant host.Valid() && fresh(host) && fresh(host.Repr) && alive
      invariant host.inputBuffer == F.Open(F.Concat(chunks[..i]))
      invariant host.HasServed(F.NonBlank(F.Complete(F.Concat(chunks[..i]))), parse, turns, true)
    {
      hide RegistryOk, P.Serve, Host.Valid, Host.View;
      assert chunks[..i + 1] == chunks[..i] + [chunks[i]];
      F.ConcatAppend(chunks[..i], chunks[i]);
      alive := host.Feed(chunks[i], parse, turns, F.Concat(chunks[..i]));
      if !alive {
        EndedEarly(chunks, i + 1, flush, parse, turns);
        return host.output, false;
      }
    }
    hide RegistryOk, P.Serve, Host.Valid, Host.View;
    assert chunks[..|chunks|] == chunks;
    var seen := F.Concat(chunks);
    F.LastLine(seen, flush);
    alive := host.HandleLine(host.inputBuffer + flush, parse, turns, F.NonBlank(F.Complete(seen)));
    output := host.output;
  }

  method RunActivation(data: Data, callback: Callback) returns (runtime: ExtensionRuntime, settled: Settled)
    ensures runtime.Valid() && fresh(runtime.Repr())
    ensures var p := HostRuntime.Play(Runtime(EmptyRegistrations(), data), callback, []);
      runtime.View() == p.runtime && settled == p.settled
  {
    hide RegistryOk, HostRuntime.Play;
    runtime := new ExtensionRuntime(data);
    var _, how := runtime.Play(callback);
    settled := how;
  }
}
