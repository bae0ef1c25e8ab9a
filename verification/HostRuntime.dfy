/** The state the extension host keeps for one extension, and what the context
    operations do to it.

    A callback is a strategy: given the answers its context operations have had so
    far, it performs another one or settles. It may be any strategy, so a statement
    about every callback is a statement about every extension, whatever that makes
    of what it is told. */
module HostRuntime {
  import opened Basics

  const MAX_EVENT_HANDLERS_PER_TYPE: nat := 32
  const MAX_ERROR_CHARS: nat := 1024

  type Handler = nat

  datatype Value = Undefined | Null | Json(text: string)

  datatype ViewScope = ViewScope(kind: string, id: string)

  datatype View = View(viewId: string, scope: Option<ViewScope>, value: Value)

  datatype Effect = Effect(kind: string, body: string)

  /** One live event handler. */
  datatype Entry = Entry(id: nat, kind: string, handler: Handler)

  /** What an extension has registered; it outlives requests. */
  datatype Registrations = Registrations(
    actions: map<string, Handler>, tools: map<string, Handler>, live: seq<Entry>, nextId: nat)

  /** What belongs to one request. */
  datatype Data = Data(
    storage: map<string, Value>, views: seq<View>,
    threads: Option<seq<string>>, automations: Option<seq<string>>, effects: seq<Effect>)

  datatype Runtime = Runtime(regs: Registrations, data: Data)

  datatype Op =
    | RegisterAction(name: string, handler: Handler)
    | RegisterTool(name: string, handler: Handler)
    | On(kind: string, handler: Handler)
    | Dispose(id: nat)
    | Get(key: string, fallback: Value)
    | Set(key: string, value: Value)
    | Delete(key: string)
    | Publish(view: View)
    | PublishSuggestions(viewId: string, threadId: string, suggestions: Value)
    | ClearSuggestions(viewId: string, threadId: string)
    | ListThreads
    | ListAutomations
    | Apply(proposal: Proposal)

  datatype Proposal =
    | Malformed           // not an object with a type
    | Uncloneable         // `structuredClone` rejects it
    | Proper(effect: Effect)

  datatype Refusal =
    | ActionTaken | ToolTaken | UnsupportedEvent | TooManyHandlers
    | ThreadsNotGranted | AutomationsNotGranted | MalformedEffect | SecondEffect | UncloneableEffect

  datatype Answer = Done | Subscribed(id: nat) | Got(value: Value) | Listed(items: seq<string>) | Refused(why: Refusal)

  /** A thrown value, by what it takes to put it into words. */
  datatype Thrown =
    // An Error with a message, or a value that converts to text.
    | Text(message: string)
    // An Error whose `message` is no string: cutting it raises an error with the text
    // `complaint`; `written` is how it appears in a frame, if it can.
    | OddMessage(complaint: string, written: Option<Value>)
    // A value whose conversion throws in turn.
    | Unprintable(cause: Thrown)

  datatype Settled = Returns(value: Value) | Throws(thrown: Thrown)

  datatype Move = Do(op: Op) | Settle(settled: Settled)

  datatype Strategy = Strategy(act: seq<Answer> -> Move, limit: nat)

  /** After some number of operations a callback settles, whatever the answers. Of
      a single run this asks no more than that the callback settles in it. */
  ghost predicate Settles(c: Strategy) { forall heard: seq<Answer> :: |heard| >= c.limit ==> c.act(heard).Settle? }

  type Callback = c: Strategy | Settles(c) witness Strategy(_ => Settle(Returns(Undefined)), 0)

  predicate Supported(kind: string) {
    kind in {"thread.updated", "turn.start", "turn.ended", "attention.opened", "attention.resolved",
             "automations.updated"}
  }

  function OfKind(live: seq<Entry>, kind: string): seq<Entry> {
    if live == [] then [] else (if live[0].kind == kind then [live[0]] else []) + OfKind(live[1..], kind)
  }

  function Without(live: seq<Entry>, id: nat): seq<Entry> {
    if live == [] then [] else (if live[0].id == id then [] else [live[0]]) + Without(live[1..], id)
  }

  function EmptyRegistrations(): Registrations { Registrations(map[], map[], [], 1) }

  function Register(r: Registrations, op: Op): (Registrations, Answer) {
    match op
    case RegisterAction(name, handler) =>
      if name in r.actions then (r, Refused(ActionTaken)) else (r.(actions := r.actions[name := handler]), Done)
    case RegisterTool(name, handler) =>
      if name in r.tools then (r, Refused(ToolTaken)) else (r.(tools := r.tools[name := handler]), Done)
    case On(kind, handler) =>
      if !Supported(kind) then (r, Refused(UnsupportedEvent))
      else if |OfKind(r.live, kind)| >= MAX_EVENT_HANDLERS_PER_TYPE then
        (r.(nextId := r.nextId + 1), Refused(TooManyHandlers))
      else
        (r.(live := r.live + [Entry(r.nextId, kind, handler)], nextId := r.nextId + 1), Subscribed(r.nextId))
    case Dispose(id) => (r.(live := Without(r.live, id)), Done)
    case _ => (r, Done)
  }

  function ThreadView(viewId: string, threadId: string, value: Value): View {
    View(viewId, Some(ViewScope("thread", threadId)), value)
  }

  function Effectuate(d: Data, op: Op): (Data, Answer) {
    match op
    case Get(key, fallback) => (d, Got(if key in d.storage then d.storage[key] else fallback))
    case Set(key, value) => (d.(storage := d.storage[key := value]), Done)
    case Delete(key) => (d.(storage := d.storage - {key}), Done)
    case Publish(view) => (d.(views := d.views + [view]), Done)
    case PublishSuggestions(viewId, threadId, suggestions) =>
      (d.(views := d.views + [ThreadView(viewId, threadId, suggestions)]), Done)
    case ClearSuggestions(viewId, threadId) =>
      (d.(views := d.views + [ThreadView(viewId, threadId, Json("{\"actions\":[]}"))]), Done)
    case ListThreads => (d, if d.threads.None? then Refused(ThreadsNotGranted) else Listed(d.threads.value))
    case ListAutomations =>
      (d, if d.automations.None? then Refused(AutomationsNotGranted) else Listed(d.automations.value))
    case Apply(proposal) =>
      if d.automations.None? then (d, Refused(AutomationsNotGranted))
      else if proposal.Malformed? then (d, Refused(MalformedEffect))
      else if |d.effects| >= 1 then (d, Refused(SecondEffect))
      else if proposal.Uncloneable? then (d, Refused(UncloneableEffect))
      else (d.(effects := d.effects + [proposal.effect]), Done)
    case _ => (d, Done)
  }

  predicate IsRegistration(op: Op) { op.RegisterAction? || op.RegisterTool? || op.On? || op.Dispose? }

  function Step(rt: Runtime, op: Op): (Runtime, Answer) {
    if IsRegistration(op) then
      var (r, a) := Register(rt.regs, op); (Runtime(r, rt.data), a)
    else
      var (d, a) := Effectuate(rt.data, op); (Runtime(rt.regs, d), a)
  }

  function Perform(rt: Runtime, ops: seq<Op>): (res: (Runtime, seq<Answer>))
    ensures |res.1| == |ops|
    decreases |ops|
  {
    if ops == [] then (rt, []) else
    var (rt1, a) := Step(rt, ops[0]);
    var (rt2, rest) := Perform(rt1, ops[1..]);
    (rt2, [a] + rest)
  }

  /** A callback that has run: what it did, what it was told, how it settled, and
      the runtime it left. */
  datatype Played = Played(runtime: Runtime, ops: seq<Op>, answers: seq<Answer>, settled: Settled)

  /** Running a callback that has already heard these answers. */
  function Play(rt: Runtime, c: Callback, heard: seq<Answer>): Played
    requires |heard| <= c.limit
    decreases c.limit - |heard|
  {
    match c.act(heard)
    case Settle(settled) => Played(rt, [], [], settled)
    case Do(op) =>
      var (rt1, a) := Step(rt, op);
      var rest := Play(rt1, c, heard + [a]);
      rest.(ops := [op] + rest.ops, answers := [a] + rest.answers)
  }

  /** One operation, and the rest. */
  lemma PlayUnfolds(rt: Runtime, c: Callback, heard: seq<Answer>)
    requires |heard| <= c.limit && c.act(heard).Do?
    ensures |heard| < c.limit
    ensures var (rt1, a) := Step(rt, c.act(heard).op); var p, rest := Play(rt, c, heard), Play(rt1, c, heard + [a]);
      p.runtime == rest.runtime && p.answers == [a] + rest.answers && p.settled == rest.settled
  {
    hide Step;
  }

  lemma PlayEnds(rt: Runtime, c: Callback, heard: seq<Answer>)
    requires |heard| <= c.limit && c.act(heard).Settle?
    ensures Play(rt, c, heard) == Played(rt, [], [], c.act(heard).settled)
  {}

  /** The runtime and the answers are those of the operations performed. */
  lemma {:induction false} PlayPerforms(rt: Runtime, c: Callback, heard: seq<Answer>)
    requires |heard| <= c.limit
    ensures var p := Play(rt, c, heard); (p.runtime, p.answers) == Perform(rt, p.ops) && |p.answers| == |p.ops|
    decreases c.limit - |heard|
  {
    hide Step;
    match c.act(heard) {
      case Settle(_) =>
      case Do(op) =>
        var (rt1, a) := Step(rt, op);
        PlayPerforms(rt1, c, heard + [a]);
        var p, rest := Play(rt, c, heard), Play(rt1, c, heard + [a]);
        assert p.ops[1..] == rest.ops && p.ops[0] == op;
    }
  }

  /** The callback chose these operations, each on the answers to the earlier ones,
      and then to settle so. */
  ghost predicate Chose(c: Callback, heard: seq<Answer>, ops: seq<Op>, answers: seq<Answer>, settled: Settled) {
    && |ops| == |answers|
    && (forall i :: 0 <= i < |ops| ==> c.act(heard + answers[..i]) == Do(ops[i]))
    && c.act(heard + answers) == Settle(settled)
  }

  lemma ChoseOneMore(c: Callback, heard: seq<Answer>, op: Op, a: Answer, ops: seq<Op>, answers: seq<Answer>,
                     settled: Settled)
    requires c.act(heard) == Do(op) && Chose(c, heard + [a], ops, answers, settled)
    ensures Chose(c, heard, [op] + ops, [a] + answers, settled)
  {
    assert heard + ([a] + answers) == heard + [a] + answers;
    forall i | 0 <= i < |ops| + 1 ensures c.act(heard + ([a] + answers)[..i]) == Do(([op] + ops)[i]) {
      if i == 0 {
        assert heard + ([a] + answers)[..0] == heard;
      } else {
        assert heard + ([a] + answers)[..i] == heard + [a] + answers[..i - 1];
      }
    }
  }

  /** The operations performed are exactly those the callback chooses. */
  lemma {:induction false} PlayFollowsCallback(rt: Runtime, c: Callback, heard: seq<Answer>)
    requires |heard| <= c.limit
    ensures var p := Play(rt, c, heard); Chose(c, heard, p.ops, p.answers, p.settled)
    decreases c.limit - |heard|
  {
    hide Step, Chose;
    match c.act(heard) {
      case Settle(settled) =>
        ChoseToSettle(c, heard, settled);
      case Do(op) =>
        var (rt1, a) := Step(rt, op);
        PlayFollowsCallback(rt1, c, heard + [a]);
        var rest := Play(rt1, c, heard + [a]);
        ChoseOneMore(c, heard, op, a, rest.ops, rest.answers, rest.settled);
    }
  }

  lemma ChoseToSettle(c: Callback, heard: seq<Answer>, settled: Settled)
    requires c.act(heard) == Settle(settled)
    ensures Chose(c, heard, [], [], settled)
  {
    assert heard + [] == heard;
  }

  // ---- event handlers ----

  ghost predicate IdsOk(r: Registrations) {
    && r.nextId >= 1
    && (forall e :: e in r.live ==> 1 <= e.id < r.nextId)
    && Sorted(r.live)
  }

  ghost predicate RegsOk(r: Registrations) {
    && IdsOk(r)
    && (forall e :: e in r.live ==> Supported(e.kind))
    && (forall kind :: |OfKind(r.live, kind)| <= MAX_EVENT_HANDLERS_PER_TYPE)
  }

  lemma ConsUnfolds(e: Entry, rest: seq<Entry>, kind: string, id: nat)
    ensures OfKind([e] + rest, kind) == (if e.kind == kind then [e] else []) + OfKind(rest, kind)
    ensures Without([e] + rest, id) == (if e.id == id then [] else [e]) + Without(rest, id)
  {
    assert ([e] + rest)[1..] == rest;
  }

  lemma {:induction false} OfKindAppend(live: seq<Entry>, e: Entry, kind: string)
    ensures OfKind(live + [e], kind) == OfKind(live, kind) + (if e.kind == kind then [e] else [])
  {
    if live == [] {
      ConsUnfolds(e, [], kind, 0);
      assert [] + [e] == [e] + [];
    } else {
      var head, rest := live[0], live[1..];
      OfKindAppend(rest, e, kind);
      ConsUnfolds(head, rest + [e], kind, 0);
      ConsUnfolds(head, rest, kind, 0);
      assert [head] + rest == live && live + [e] == [head] + (rest + [e]);
      var h := if head.kind == kind then [head] else [];
      var t := if e.kind == kind then [e] else [];
      assert h + (OfKind(rest, kind) + t) == h + OfKind(rest, kind) + t;
    }
  }

  lemma {:induction false} OfKindMembers(live: seq<Entry>, kind: string)
    ensures forall e :: e in OfKind(live, kind) <==> e in live && e.kind == kind
  {
    if live != [] {
      OfKindMembers(live[1..], kind);
      assert live == [live[0]] + live[1..];
    }
  }

  lemma {:induction false} WithoutMembers(live: seq<Entry>, id: nat)
    ensures forall e :: e in Without(live, id) <==> e in live && e.id != id
  {
    if live != [] {
      WithoutMembers(live[1..], id);
      assert live == [live[0]] + live[1..];
    }
  }

  /** Removing a handler and picking out a type commute. */
  lemma {:induction false} OfKindWithout(live: seq<Entry>, id: nat, kind: string)
    ensures OfKind(Without(live, id), kind) == Without(OfKind(live, kind), id)
  {
    if live != [] {
      OfKindWithout(live[1..], id, kind);
      ConsUnfolds(live[0], Without(live[1..], id), kind, id);
      ConsUnfolds(live[0], OfKind(live[1..], kind), kind, id);
      assert [] + Without(live[1..], id) == Without(live[1..], id);
      assert [] + OfKind(live[1..], kind) == OfKind(live[1..], kind);
    }
  }

  lemma {:induction false} WithoutShorter(live: seq<Entry>, id: nat)
    ensures |Without(live, id)| <= |live|
  {
    if live != [] { WithoutShorter(live[1..], id); }
  }

  ghost predicate Sorted(live: seq<Entry>) { forall i, j :: 0 <= i < j < |live| ==> live[i].id < live[j].id }

  lemma {:induction false} WithoutStaysSorted(live: seq<Entry>, id: nat)
    requires Sorted(live)
    ensures Sorted(Without(live, id))
  {
    if live != [] {
      WithoutStaysSorted(live[1..], id);
      WithoutMembers(live[1..], id);
      var rest := Without(live[1..], id);
      forall j | 0 <= j < |rest| ensures live[0].id < rest[j].id {
        assert rest[j] in rest;
        assert rest[j] in live[1..];
      }
      assert Without(live, id) == if live[0].id == id then rest else [live[0]] + rest;
    }
  }

  lemma OnKeepsRegsOk(r: Registrations, kind: string, handler: Handler)
    requires RegsOk(r) && Supported(kind) && |OfKind(r.live, kind)| < MAX_EVENT_HANDLERS_PER_TYPE
    ensures RegsOk(r.(live := r.live + [Entry(r.nextId, kind, handler)], nextId := r.nextId + 1))
  {
    hide OfKind;
    var e := Entry(r.nextId, kind, handler);
    forall k ensures |OfKind(r.live + [e], k)| <= MAX_EVENT_HANDLERS_PER_TYPE {
      OfKindAppend(r.live, e, k);
    }
  }

  lemma DisposeKeepsRegsOk(r: Registrations, id: nat)
    requires RegsOk(r)
    ensures RegsOk(r.(live := Without(r.live, id)))
  {
    WithoutMembers(r.live, id);
    WithoutStaysSorted(r.live, id);
    forall k ensures |OfKind(Without(r.live, id), k)| <= MAX_EVENT_HANDLERS_PER_TYPE {
      OfKindWithout(r.live, id, k);
      WithoutShorter(OfKind(r.live, k), id);
    }
  }

  /** Every operation keeps each type's handlers in registration order, at most 32
      of them, under ids that are never used again. */
  lemma StepKeepsRegsOk(rt: Runtime, op: Op)
    requires RegsOk(rt.regs)
    ensures RegsOk(Step(rt, op).0.regs) && rt.regs.nextId <= Step(rt, op).0.regs.nextId
  {
    hide OfKind, Without;
    match op {
      case On(kind, handler) =>
        if Supported(kind) && |OfKind(rt.regs.live, kind)| < MAX_EVENT_HANDLERS_PER_TYPE {
          OnKeepsRegsOk(rt.regs, kind, handler);
        }
      case Dispose(id) => DisposeKeepsRegsOk(rt.regs, id);
      case _ =>
    }
  }

  lemma {:induction false} PerformKeepsRegsOk(rt: Runtime, ops: seq<Op>)
    requires RegsOk(rt.regs)
    ensures RegsOk(Perform(rt, ops).0.regs)
    decreases |ops|
  {
    if ops != [] {
      StepKeepsRegsOk(rt, ops[0]);
      PerformKeepsRegsOk(Step(rt, ops[0]).0, ops[1..]);
    }
  }

  // ---- data ----

  /** The storage after a list of operations, read off the `set` and `delete`
      calls alone. */
  function Stored(storage: map<string, Value>, ops: seq<Op>): map<string, Value>
    decreases |ops|
  {
    if ops == [] then storage else
    match ops[0]
    case Set(key, value) => Stored(storage[key := value], ops[1..])
    case Delete(key) => Stored(storage - {key}, ops[1..])
    case _ => Stored(storage, ops[1..])
  }

  ghost predicate EffectsOk(d: Data) { |d.effects| <= 1 && (d.effects != [] ==> d.automations.Some?) }

  /** The part of the result of a list of operations that belongs to the request
      depends on the request alone: not on what is registered, nor on what earlier
      requests left behind. */
  lemma {:induction false} PerformData(rt: Runtime, ops: seq<Op>)
    ensures Perform(rt, ops).0.data == Perform(Runtime(EmptyRegistrations(), rt.data), ops).0.data
    ensures Perform(rt, ops).0.data.storage == Stored(rt.data.storage, ops)
    ensures Perform(rt, ops).0.data.threads == rt.data.threads
    ensures Perform(rt, ops).0.data.automations == rt.data.automations
    ensures EffectsOk(rt.data) ==> EffectsOk(Perform(rt, ops).0.data)
    decreases |ops|
  {
    if ops != [] {
      var rt1 := Step(rt, ops[0]).0;
      var bare := Step(Runtime(EmptyRegistrations(), rt.data), ops[0]).0;
      PerformData(rt1, ops[1..]);
      PerformData(bare, ops[1..]);
    }
  }

  predicate Publishes(op: Op) { op.Publish? || op.PublishSuggestions? || op.ClearSuggestions? }

  predicate Applies(op: Op) { op.Apply? && op.proposal.Proper? }

  /** The operations publish nothing, apply no effect that was granted, and leave
      the storage as it was. */
  ghost predicate LeavesData(d: Data, ops: seq<Op>) {
    && (forall op :: op in ops ==> !Publishes(op))
    && (d.automations.Some? ==> forall op :: op in ops ==> !Applies(op))
    && Stored(d.storage, ops) == d.storage
  }

  lemma {:induction false} ViewsGrow(rt: Runtime, ops: seq<Op>)
    ensures var views := Perform(rt, ops).0.data.views;
      && |rt.data.views| <= |views|
      && (views == rt.data.views <==> forall op :: op in ops ==> !Publishes(op))
    decreases |ops|
  {
    if ops != [] {
      var rt1 := Step(rt, ops[0]).0;
      ViewsGrow(rt1, ops[1..]);
      assert |rt1.data.views| == |rt.data.views| + (if Publishes(ops[0]) then 1 else 0);
      assert !Publishes(ops[0]) ==> rt1.data.views == rt.data.views;
      assert ops == [ops[0]] + ops[1..];
      assert (forall op :: op in ops ==> !Publishes(op))
        <==> !Publishes(ops[0]) && forall op :: op in ops[1..] ==> !Publishes(op);
    }
  }

  lemma {:induction false} EffectsGrow(rt: Runtime, ops: seq<Op>)
    ensures var effects := Perform(rt, ops).0.data.effects;
      && (rt.data.effects != [] ==> effects != [])
      && (rt.data.effects == [] ==>
            (effects == [] <==> (rt.data.automations.Some? ==> forall op :: op in ops ==> !Applies(op))))
    decreases |ops|
  {
    if ops != [] {
      var rt1 := Step(rt, ops[0]).0;
      EffectsGrow(rt1, ops[1..]);
      assert rt1.data.automations == rt.data.automations;
      assert rt.data.effects == [] ==> (rt1.data.effects == [] <==> !(rt.data.automations.Some? && Applies(ops[0])));
      assert ops == [ops[0]] + ops[1..];
      assert (forall op :: op in ops ==> !Applies(op))
        <==> !Applies(ops[0]) && forall op :: op in ops[1..] ==> !Applies(op);
    }
  }

  /** Exactly such operations leave the data as it was. */
  lemma DataIsLeft(rt: Runtime, ops: seq<Op>)
    requires rt.data.effects == []
    ensures Perform(rt, ops).0.data == rt.data <==> LeavesData(rt.data, ops)
  {
    PerformData(rt, ops);
    ViewsGrow(rt, ops);
    EffectsGrow(rt, ops);
    hide Perform, Stored;
  }

  // ---- renaming handler ids ----

  function RenameEntries(f: nat -> nat, live: seq<Entry>): seq<Entry> {
    seq(|live|, i requires 0 <= i < |live| => live[i].(id := f(live[i].id)))
  }

  function RenameRegs(f: nat -> nat, r: Registrations): Registrations {
    r.(live := RenameEntries(f, r.live), nextId := f(r.nextId))
  }

  function RenameOp(f: nat -> nat, op: Op): Op { if op.Dispose? then Dispose(f(op.id)) else op }

  function RenameOps(f: nat -> nat, ops: seq<Op>): seq<Op> {
    seq(|ops|, i requires 0 <= i < |ops| => RenameOp(f, ops[i]))
  }

  function RenameAnswer(f: nat -> nat, a: Answer): Answer { if a.Subscribed? then Subscribed(f(a.id)) else a }

  function RenameAnswers(f: nat -> nat, answers: seq<Answer>): seq<Answer> {
    seq(|answers|, i requires 0 <= i < |answers| => RenameAnswer(f, answers[i]))
  }

  /** `f` keeps live ids apart from all others and continues the numbering. */
  ghost predicate Renames(f: nat -> nat, r: Registrations) {
    && (forall e, x: nat :: e in r.live && f(x) == f(e.id) ==> x == e.id)
    && (forall x: nat :: x < r.nextId ==> f(x) < f(r.nextId))
    && (forall x: nat :: x >= r.nextId ==> f(x) == f(r.nextId) + (x - r.nextId))
  }

  lemma {:induction false} RenameOfKind(f: nat -> nat, live: seq<Entry>, kind: string)
    ensures OfKind(RenameEntries(f, live), kind) == RenameEntries(f, OfKind(live, kind))
  {
    if live != [] {
      RenameOfKind(f, live[1..], kind);
      assert RenameEntries(f, live)[1..] == RenameEntries(f, live[1..]);
      assert RenameEntries(f, live)[0] == live[0].(id := f(live[0].id));
    }
  }

  lemma {:induction false} RenameWithout(f: nat -> nat, live: seq<Entry>, id: nat)
    requires forall e :: e in live && f(id) == f(e.id) ==> id == e.id
    ensures Without(RenameEntries(f, live), f(id)) == RenameEntries(f, Without(live, id))
  {
    if live != [] {
      var e, rest := live[0], live[1..];
      var renamed := e.(id := f(e.id));
      assert live == [e] + rest && e in live;
      RenameWithout(f, rest, id);
      RenameEntriesCons(f, e, rest);
      RenameEntriesCons(f, e, Without(rest, id));
      ConsUnfolds(e, rest, "", id);
      ConsUnfolds(renamed, RenameEntries(f, rest), "", f(id));
      assert [] + Without(rest, id) == Without(rest, id);
      hide Without, RenameEntries, OfKind;
    }
  }

  lemma RenameEntriesCons(f: nat -> nat, e: Entry, rest: seq<Entry>)
    ensures RenameEntries(f, [e] + rest) == [e.(id := f(e.id))] + RenameEntries(f, rest)
  {}

  lemma RenameOn(f: nat -> nat, r: Registrations, kind: string, handler: Handler)
    requires Renames(f, r)
    ensures var e := Entry(r.nextId, kind, handler); var r1 := r.(live := r.live + [e], nextId := r.nextId + 1);
      && RenameEntries(f, r1.live) == RenameEntries(f, r.live) + [e.(id := f(e.id))]
      && Renames(f, r1) && Renames(f, r.(nextId := r.nextId + 1))
      && f(r.nextId + 1) == f(r.nextId) + 1
  {
    var e := Entry(r.nextId, kind, handler);
    var r1 := r.(live := r.live + [e], nextId := r.nextId + 1);
    assert f(r.nextId + 1) == f(r.nextId) + 1;
    forall d, x: nat | d in r1.live && f(x) == f(d.id) ensures x == d.id {
      assert d in r.live || d == e;
    }
  }

  lemma RenameDispose(f: nat -> nat, r: Registrations, id: nat)
    requires Renames(f, r)
    ensures Without(RenameEntries(f, r.live), f(id)) == RenameEntries(f, Without(r.live, id))
    ensures Renames(f, r.(live := Without(r.live, id)))
  {
    RenameWithout(f, r.live, id);
    WithoutMembers(r.live, id);
  }

  lemma RenameRegister(f: nat -> nat, r: Registrations, op: Op)
    requires Renames(f, r) && IsRegistration(op)
    ensures var (r1, a) := Register(r, op);
      Register(RenameRegs(f, r), RenameOp(f, op)) == (RenameRegs(f, r1), RenameAnswer(f, a)) && Renames(f, r1)
  {
    hide OfKind, Without;
    match op {
      case On(kind, handler) =>
        RenameOfKind(f, r.live, kind);
        RenameOn(f, r, kind, handler);
      case Dispose(id) => RenameDispose(f, r, id);
      case _ =>
    }
  }

  lemma RenameStep(f: nat -> nat, rt: Runtime, op: Op)
    requires Renames(f, rt.regs)
    ensures var (rt1, a) := Step(rt, op);
      && Step(Runtime(RenameRegs(f, rt.regs), rt.data), RenameOp(f, op))
           == (Runtime(RenameRegs(f, rt1.regs), rt1.data), RenameAnswer(f, a))
      && Renames(f, rt1.regs)
  {
    if IsRegistration(op) {
      RenameRegister(f, rt.regs, op);
      hide Register, Renames, RenameRegs;
    } else {
      hide Renames, RenameRegs;
    }
  }

  /** Operations commute with renaming, so ids can never show in a response. */
  lemma {:induction false} RenamePerform(f: nat -> nat, rt: Runtime, ops: seq<Op>)
    requires Renames(f, rt.regs)
    ensures var (rt1, answers) := Perform(rt, ops);
      && Perform(Runtime(RenameRegs(f, rt.regs), rt.data), RenameOps(f, ops)).0
           == Runtime(RenameRegs(f, rt1.regs), rt1.data)
      && Perform(Runtime(RenameRegs(f, rt.regs), rt.data), RenameOps(f, ops)).1 == RenameAnswers(f, answers)
      && Renames(f, rt1.regs)
    decreases |ops|
  {
    if ops != [] {
      hide Step, RenameRegs, Renames, RenameOp;
      RenameStep(f, rt, ops[0]);
      var rt1 := Step(rt, ops[0]).0;
      RenamePerform(f, rt1, ops[1..]);
      assert ops == [ops[0]] + ops[1..];
      RenameOpsCons(f, ops[0], ops[1..]);
      RenameAnswersCons(f, Step(rt, ops[0]).1, Perform(rt1, ops[1..]).1);
      hide RenameAnswers, RenameOps;
    }
  }

  function RenameMove(f: nat -> nat, m: Move): Move { if m.Do? then Do(RenameOp(f, m.op)) else m }

  /** No id below `from` is handed out in these answers. */
  ghost predicate HandsOutFrom(from: nat, answers: seq<Answer>) {
    forall a :: a in answers && a.Subscribed? ==> a.id >= from
  }

  /** `d` does what `c` does, with its handles renamed: on the answers that `c` would
      hear, renamed, it makes the same move, renamed. Nothing is said of the answers
      they do hear. */
  ghost predicate Alike(f: nat -> nat, from: nat, c: Callback, d: Callback) {
    forall heard :: HandsOutFrom(from, heard) ==> d.act(RenameAnswers(f, heard)) == RenameMove(f, c.act(heard))
  }

  /** Two callbacks that are alike, on two runtimes that differ in their handles
      alone, hear the same answers, perform the same operations, settle alike and
      leave the same data. */
  ghost predicate SamePlay(f: nat -> nat, p: Played, q: Played) {
    && q.runtime == Runtime(RenameRegs(f, p.runtime.regs), p.runtime.data)
    && q.ops == RenameOps(f, p.ops) && q.answers == RenameAnswers(f, p.answers) && q.settled == p.settled
  }

  lemma RenameAnswersAppend(f: nat -> nat, a: seq<Answer>, b: seq<Answer>)
    ensures RenameAnswers(f, a + b) == RenameAnswers(f, a) + RenameAnswers(f, b)
  {}

  lemma RenameOpsCons(f: nat -> nat, op: Op, ops: seq<Op>)
    ensures RenameOps(f, [op] + ops) == [RenameOp(f, op)] + RenameOps(f, ops)
  {}

  lemma RenameAnswersCons(f: nat -> nat, a: Answer, answers: seq<Answer>)
    ensures RenameAnswers(f, [a] + answers) == [RenameAnswer(f, a)] + RenameAnswers(f, answers)
  {}

  lemma StepHandsOut(rt: Runtime, op: Op)
    ensures var (rt1, a) := Step(rt, op);
      rt.regs.nextId <= rt1.regs.nextId && (a.Subscribed? ==> a.id == rt.regs.nextId)
  {}

  lemma {:induction false} PlayAlike(f: nat -> nat, from: nat, rt: Runtime, c: Callback, d: Callback,
                                     heard: seq<Answer>)
    requires Renames(f, rt.regs) && from <= rt.regs.nextId
    requires Alike(f, from, c, d) && HandsOutFrom(from, heard) && |heard| <= c.limit && |heard| <= d.limit
    ensures var p := Play(rt, c, heard);
      && SamePlay(f, p, Play(Runtime(RenameRegs(f, rt.regs), rt.data), d, RenameAnswers(f, heard)))
      && Renames(f, p.runtime.regs) && from <= p.runtime.regs.nextId
      && HandsOutFrom(from, p.answers)
    decreases c.limit - |heard|
  {
    hide Step, Renames, RenameRegs;
    match c.act(heard) {
      case Settle(_) =>
      case Do(op) =>
        var (rt1, a) := Step(rt, op);
        RenameStep(f, rt, op);
        StepHandsOut(rt, op);
        RenameAnswersAppend(f, heard, [a]);
        assert RenameAnswers(f, [a]) == [RenameAnswer(f, a)];
        PlayAlike(f, from, rt1, c, d, heard + [a]);
        var rest := Play(rt1, c, heard + [a]);
        RenameOpsCons(f, op, rest.ops);
        RenameAnswersCons(f, a, rest.answers);
    }
  }

  /** The same actions, tools and handlers, in the same order. */
  ghost predicate SameRegistrations(r: Registrations, q: Registrations) {
    && r.actions == q.actions && r.tools == q.tools
    && |r.live| == |q.live|
    && forall i :: 0 <= i < |r.live| ==> r.live[i].kind == q.live[i].kind && r.live[i].handler == q.live[i].handler
  }

  function PairedId(rs: seq<Entry>, qs: seq<Entry>, id: nat): nat
    requires |rs| == |qs|
  {
    if rs == [] then 0 else if rs[0].id == id then qs[0].id else PairedId(rs[1..], qs[1..], id)
  }

  lemma {:induction false} PairedIdFinds(rs: seq<Entry>, qs: seq<Entry>, id: nat) returns (i: nat)
    requires |rs| == |qs|
    ensures i <= |rs|
    ensures i < |rs| ==> rs[i].id == id && PairedId(rs, qs, id) == qs[i].id
    ensures i == |rs| ==> PairedId(rs, qs, id) == 0 && forall e :: e in rs ==> e.id != id
  {
    if rs == [] || rs[0].id == id {
      i := 0;
    } else {
      var j := PairedIdFinds(rs[1..], qs[1..], id);
      i := j + 1;
      assert rs == [rs[0]] + rs[1..];
    }
  }

  /** Takes the ids of `r` to those of `q`; an id that is no longer live goes to 0,
      which is never issued. */
  function Pairing(r: Registrations, q: Registrations): nat -> nat
    requires |r.live| == |q.live|
  {
    (x: nat) => if x >= r.nextId then q.nextId + (x - r.nextId) else PairedId(r.live, q.live, x)
  }

  lemma PairingPairs(r: Registrations, q: Registrations, i: nat)
    requires |r.live| == |q.live| && IdsOk(r) && i < |r.live|
    ensures Pairing(r, q)(r.live[i].id) == q.live[i].id
  {
    assert r.live[i] in r.live;
    var j := PairedIdFinds(r.live, q.live, r.live[i].id);
  }

  lemma PairingKeepsApart(r: Registrations, q: Registrations, i: nat, x: nat)
    requires |r.live| == |q.live| && IdsOk(r) && IdsOk(q)
    requires i < |r.live| && Pairing(r, q)(x) == Pairing(r, q)(r.live[i].id)
    ensures x == r.live[i].id
  {
    assert q.live[i] in q.live;
    PairingPairs(r, q, i);
    var j := PairedIdFinds(r.live, q.live, x);
  }

  lemma PairingRenames(r: Registrations, q: Registrations)
    requires SameRegistrations(r, q) && IdsOk(r) && IdsOk(q)
    ensures Renames(Pairing(r, q), r) && RenameRegs(Pairing(r, q), r) == q
  {
    var f := Pairing(r, q);
    assert RenameRegs(f, r) == q by {
      forall i | 0 <= i < |r.live| ensures f(r.live[i].id) == q.live[i].id { PairingPairs(r, q, i); }
      assert RenameEntries(f, r.live) == q.live;
    }
    forall x: nat | x < r.nextId ensures f(x) < f(r.nextId) {
      var j := PairedIdFinds(r.live, q.live, x);
      if j < |q.live| { assert q.live[j] in q.live; }
    }
    forall e, x: nat | e in r.live && f(x) == f(e.id) ensures x == e.id {
      var i :| 0 <= i < |r.live| && r.live[i] == e;
      PairingKeepsApart(r, q, i, x);
    }
  }

  /** The callback `c` with its handles renamed: `f` there and `g` back. */
  function Renamed(f: nat -> nat, g: nat -> nat, c: Callback): Callback {
    var d := Strategy(heard => RenameMove(f, c.act(RenameAnswers(g, heard))), c.limit);
    assert forall heard: seq<Answer> :: |heard| >= c.limit ==> c.act(RenameAnswers(g, heard)).Settle?;
    d
  }

  /** `Pairing` back, for the ids handed out from now on. */
  function Unpairing(r: Registrations, q: Registrations): nat -> nat { (y: nat) => UnpairedId(r, q, y) }

  function UnpairedId(r: Registrations, q: Registrations, y: nat): nat {
    if y < q.nextId then 0 else y - q.nextId + r.nextId
  }

  lemma UnpairingUndoes(r: Registrations, q: Registrations, heard: seq<Answer>)
    requires SameRegistrations(r, q) && IdsOk(r) && IdsOk(q) && HandsOutFrom(r.nextId, heard)
    ensures RenameAnswers(Unpairing(r, q), RenameAnswers(Pairing(r, q), heard)) == heard
  {
    PairingRenames(r, q);
    var f, g := Pairing(r, q), Unpairing(r, q);
    forall i | 0 <= i < |heard| ensures RenameAnswer(g, RenameAnswer(f, heard[i])) == heard[i] {
      assert heard[i] in heard;
    }
  }

  lemma RenamedActs(f: nat -> nat, g: nat -> nat, c: Callback, heard: seq<Answer>)
    ensures Renamed(f, g, c).act(heard) == RenameMove(f, c.act(RenameAnswers(g, heard)))
  {
    hide RenameAnswers, RenameMove, Settles;
  }

  /** For every callback on the one runtime there is one on the other that is alike. */
  lemma SomeCallbackIsAlike(r: Registrations, q: Registrations, c: Callback)
    requires SameRegistrations(r, q) && IdsOk(r) && IdsOk(q)
    ensures Alike(Pairing(r, q), r.nextId, c, Renamed(Pairing(r, q), Unpairing(r, q), c))
  {
    var f, g := Pairing(r, q), Unpairing(r, q);
    var d := Renamed(f, g, c);
    hide Renamed, Pairing, Unpairing, RenameAnswers, RenameMove, Settles, HandsOutFrom, SameRegistrations, IdsOk;
    forall heard | HandsOutFrom(r.nextId, heard)
      ensures d.act(RenameAnswers(f, heard)) == RenameMove(f, c.act(heard))
    {
      UnpairingUndoes(r, q, heard);
      RenamedActs(f, g, c, RenameAnswers(f, heard));
    }
  }
}
