/** What a runtime has become, read off the operations its extension performed and
    the answers they had: which handlers are registered, what the storage holds, what
    was published and applied, and what each operation was told. */
module HostHistory {
  import opened Basics
  import opened HostRuntime

  lemma {:induction false} PerformJoins(rt: Runtime, a: seq<Op>, b: seq<Op>)
    ensures var (mid, first) := Perform(rt, a); var (last, second) := Perform(mid, b);
      Perform(rt, a + b) == (last, first + second)
    decreases |a|
  {
    hide Step;
    if a == [] {
      assert a + b == b && [] + Perform(rt, b).1 == Perform(rt, b).1;
    } else {
      var (rt1, answer) := Step(rt, a[0]);
      assert (a + b)[1..] == a[1..] + b && (a + b)[0] == a[0];
      PerformJoins(rt1, a[1..], b);
      var mid, first := Perform(rt1, a[1..]).0, Perform(rt1, a[1..]).1;
      assert [answer] + (first + Perform(mid, b).1) == [answer] + first + Perform(mid, b).1;
    }
  }

  /** The last operation acts on what the earlier ones left. */
  lemma PerformOneMore(rt: Runtime, ops: seq<Op>, op: Op)
    ensures var (mid, answers) := Perform(rt, ops); var (last, a) := Step(mid, op);
      Perform(rt, ops + [op]) == (last, answers + [a])
  {
    PerformJoins(rt, ops, [op]);
    var mid := Perform(rt, ops).0;
    var (last, a) := Step(mid, op);
    assert [op][1..] == [] && [a] + [] == [a];
    assert Perform(last, []) == (last, []);
    assert Perform(mid, [op]) == (last, [a]);
  }

  /** Each operation acts on what the earlier ones left. */
  lemma AnswerAt(rt: Runtime, ops: seq<Op>, i: nat)
    requires i < |ops|
    ensures Perform(rt, ops).1[i] == Step(Perform(rt, ops[..i]).0, ops[i]).1
    ensures Perform(rt, ops).1[..i] == Perform(rt, ops[..i]).1
  {
    hide Step;
    PerformOneMore(rt, ops[..i], ops[i]);
    assert ops[..i + 1] == ops[..i] + [ops[i]];
    PerformJoins(rt, ops[..i + 1], ops[i + 1..]);
    assert ops == ops[..i + 1] + ops[i + 1..];
    hide Perform;
  }

  // ---- event handlers ----

  /** The i-th operation subscribed a handler, and no later one disposed of it. */
  predicate Stands(ops: seq<Op>, answers: seq<Answer>, i: nat)
    requires i < |ops| == |answers|
  {
    ops[i].On? && answers[i].Subscribed? && forall j :: i < j < |ops| ==> ops[j] != Dispose(answers[i].id)
  }

  /** The handlers of these among the first n operations, in order. */
  function Standing(ops: seq<Op>, answers: seq<Answer>, n: nat): seq<Entry>
    requires n <= |ops| == |answers|
  {
    if n == 0 then [] else
    Standing(ops, answers, n - 1)
    + if Stands(ops, answers, n - 1) then [Entry(answers[n - 1].id, ops[n - 1].kind, ops[n - 1].handler)] else []
  }

  lemma {:induction false} WithoutJoins(a: seq<Entry>, b: seq<Entry>, id: nat)
    ensures Without(a + b, id) == Without(a, id) + Without(b, id)
  {
    if a == [] {
      assert a + b == b;
    } else {
      assert a + b == [a[0]] + (a[1..] + b);
      WithoutJoins(a[1..], b, id);
      ConsUnfolds(a[0], a[1..] + b, "", id);
    }
  }

  lemma WithoutOne(e: Entry, id: nat)
    ensures Without([e], id) == if e.id == id then [] else [e]
  {
    ConsUnfolds(e, [], "", id);
    assert [e] + [] == [e];
  }

  lemma StandsAfter(ops: seq<Op>, answers: seq<Answer>, op: Op, a: Answer, i: nat)
    requires i < |ops| == |answers|
    ensures Stands(ops + [op], answers + [a], i) <==> Stands(ops, answers, i) && op != Dispose(answers[i].id)
  {
    var more := ops + [op];
    assert more[i] == ops[i] && (answers + [a])[i] == answers[i] && more[|ops|] == op;
    forall j | i < j < |ops| ensures more[j] == ops[j] {}
  }

  lemma {:induction false} StandingAfter(ops: seq<Op>, answers: seq<Answer>, op: Op, a: Answer, n: nat)
    requires n <= |ops| == |answers|
    ensures Standing(ops + [op], answers + [a], n)
         == if op.Dispose? then Without(Standing(ops, answers, n), op.id) else Standing(ops, answers, n)
  {
    if n > 0 {
      StandingAfter(ops, answers, op, a, n - 1);
      StandsAfter(ops, answers, op, a, n - 1);
      var earlier := Standing(ops, answers, n - 1);
      assert earlier + [] == earlier;
      if Stands(ops, answers, n - 1) {
        var e := Entry(answers[n - 1].id, ops[n - 1].kind, ops[n - 1].handler);
        assert Standing(ops, answers, n) == earlier + [e];
        if op.Dispose? {
          WithoutJoins(earlier, [e], op.id);
          WithoutOne(e, op.id);
        }
      }
      hide Without;
    }
  }

  /** The handlers registered are exactly those that an operation subscribed and no
      later one disposed of, in the order of those operations. */
  lemma {:induction false} LiveIsStanding(d: Data, ops: seq<Op>)
    ensures var (rt, answers) := Perform(Runtime(EmptyRegistrations(), d), ops);
      rt.regs.live == Standing(ops, answers, |ops|)
    decreases |ops|
  {
    if ops != [] {
      var n := |ops| - 1;
      var init, op := ops[..n], ops[n];
      assert ops == init + [op];
      LiveIsStanding(d, init);
      var start := Runtime(EmptyRegistrations(), d);
      PerformOneMore(start, init, op);
      var (mid, answers) := Perform(start, init);
      var a := Step(mid, op).1;
      StandingAfter(init, answers, op, a, n);
      LastStands(init, answers, op, a);
      hide Perform, Standing, Stands, OfKind, Without;
    }
  }

  lemma LastStands(ops: seq<Op>, answers: seq<Answer>, op: Op, a: Answer)
    requires |ops| == |answers|
    ensures Standing(ops + [op], answers + [a], |ops| + 1)
         == Standing(ops + [op], answers + [a], |ops|)
            + if op.On? && a.Subscribed? then [Entry(a.id, op.kind, op.handler)] else []
  {
    var more, told := ops + [op], answers + [a];
    assert more[|ops|] == op && told[|ops|] == a;
    assert Stands(more, told, |ops|) <==> op.On? && a.Subscribed?;
  }

  function EventTypes(): seq<string> {
    ["attention.opened", "attention.resolved", "automations.updated", "thread.updated", "turn.ended", "turn.start"]
  }

  lemma SixTypes(kind: string)
    ensures Supported(kind) <==> kind in EventTypes()
  {}

  /** `on` is refused exactly if the type is unsupported or 32 of its handlers are
      registered. */
  lemma OnRefusedExactly(d: Data, ops: seq<Op>, i: nat)
    requires i < |ops| && ops[i].On?
    ensures var start := Runtime(EmptyRegistrations(), d);
      var (rt, answers) := Perform(start, ops);
      var there := OfKind(Standing(ops[..i], answers[..i], i), ops[i].kind);
      && |there| <= 32
      && (answers[i] == Refused(UnsupportedEvent) <==> ops[i].kind !in EventTypes())
      && (answers[i] == Refused(TooManyHandlers) <==> ops[i].kind in EventTypes() && |there| == 32)
      && (answers[i].Subscribed? || answers[i].Refused?)
  {
    var start := Runtime(EmptyRegistrations(), d);
    AnswerAt(start, ops, i);
    LiveIsStanding(d, ops[..i]);
    PerformKeepsRegsOk(start, ops[..i]);
    SixTypes(ops[i].kind);
    hide Perform, Standing, OfKind, Supported, EventTypes;
  }

  // ---- actions and tools ----

  /** The handler that the first operation to register an action of this name gave. */
  function FirstAction(ops: seq<Op>, name: string): Option<Handler> {
    if ops == [] then None
    else if ops[0].RegisterAction? && ops[0].name == name then Some(ops[0].handler)
    else FirstAction(ops[1..], name)
  }

  function FirstTool(ops: seq<Op>, name: string): Option<Handler> {
    if ops == [] then None
    else if ops[0].RegisterTool? && ops[0].name == name then Some(ops[0].handler)
    else FirstTool(ops[1..], name)
  }

  lemma {:induction false} FirstOneMore(ops: seq<Op>, op: Op, name: string)
    ensures FirstAction(ops + [op], name)
         == (if FirstAction(ops, name).Some? then FirstAction(ops, name)
             else if op.RegisterAction? && op.name == name then Some(op.handler) else None)
    ensures FirstTool(ops + [op], name)
         == (if FirstTool(ops, name).Some? then FirstTool(ops, name)
             else if op.RegisterTool? && op.name == name then Some(op.handler) else None)
  {
    if ops == [] {
      assert ops + [op] == [op] && [op][1..] == [];
    } else {
      assert (ops + [op])[0] == ops[0] && (ops + [op])[1..] == ops[1..] + [op];
      FirstOneMore(ops[1..], op, name);
    }
  }

  /** An action or tool is registered exactly if some operation registered one of its
      name, and then with the handler that the first such operation gave. */
  lemma {:induction false} FirstRegistrationHolds(d: Data, ops: seq<Op>, name: string)
    ensures var r := Perform(Runtime(EmptyRegistrations(), d), ops).0.regs;
      && (name in r.actions <==> FirstAction(ops, name).Some?)
      && (name in r.actions ==> FirstAction(ops, name) == Some(r.actions[name]))
      && (name in r.tools <==> FirstTool(ops, name).Some?)
      && (name in r.tools ==> FirstTool(ops, name) == Some(r.tools[name]))
    decreases |ops|
  {
    if ops != [] {
      var n := |ops| - 1;
      var init, op := ops[..n], ops[n];
      assert ops == init + [op];
      FirstRegistrationHolds(d, init, name);
      FirstOneMore(init, op, name);
      PerformOneMore(Runtime(EmptyRegistrations(), d), init, op);
      hide Perform, FirstAction, FirstTool, OfKind, Without;
    }
  }

  /** Registering a name again is refused, and only that. */
  lemma RegistrationAnswers(d: Data, ops: seq<Op>, i: nat)
    requires i < |ops|
    ensures var answers := Perform(Runtime(EmptyRegistrations(), d), ops).1;
      && (ops[i].RegisterAction? ==>
            answers[i] == if FirstAction(ops[..i], ops[i].name).None? then Done else Refused(ActionTaken))
      && (ops[i].RegisterTool? ==>
            answers[i] == if FirstTool(ops[..i], ops[i].name).None? then Done else Refused(ToolTaken))
  {
    AnswerAt(Runtime(EmptyRegistrations(), d), ops, i);
    if ops[i].RegisterAction? || ops[i].RegisterTool? { FirstRegistrationHolds(d, ops[..i], ops[i].name); }
    hide Perform, FirstAction, FirstTool;
  }

  // ---- the request's data ----

  /** The operation sets or deletes this key. */
  predicate Touches(op: Op, key: string) { (op.Set? || op.Delete?) && op.key == key }

  /** The storage holds under each key what the last operation to touch it left. */
  lemma {:induction false} StoredIsLast(storage: map<string, Value>, ops: seq<Op>, key: string, i: nat)
    requires i <= |ops|
    requires forall j :: i <= j < |ops| ==> !Touches(ops[j], key)
    requires i > 0 ==> Touches(ops[i - 1], key)
    ensures var after := Stored(storage, ops);
      if i == 0 then (key in after <==> key in storage) && (key in storage ==> after[key] == storage[key])
      else if ops[i - 1].Set? then key in after && after[key] == ops[i - 1].value
      else key !in after
    decreases |ops|
  {
    if ops != [] {
      var op, rest := ops[0], ops[1..];
      var next := match op case Set(k, v) => storage[k := v] case Delete(k) => storage - {k} case _ => storage;
      assert Stored(storage, ops) == Stored(next, rest);
      forall j | 0 <= j < |rest| ensures rest[j] == ops[j + 1] {}
      StoredIsLast(next, rest, key, if i == 0 then 0 else i - 1);
    }
  }

  /** The view an operation publishes. */
  function ViewOf(op: Op): Option<View> {
    match op
    case Publish(view) => Some(view)
    case PublishSuggestions(viewId, threadId, suggestions) =>
      Some(View(viewId, Some(ViewScope("thread", threadId)), suggestions))
    case ClearSuggestions(viewId, threadId) =>
      Some(View(viewId, Some(ViewScope("thread", threadId)), Json("{\"actions\":[]}")))
    case _ => None
  }

  /** The views these operations publish, in order. */
  function Published(ops: seq<Op>): seq<View> {
    if ops == [] then [] else
    (if ViewOf(ops[0]).Some? then [ViewOf(ops[0]).value] else []) + Published(ops[1..])
  }

  lemma {:induction false} ViewsArePublished(rt: Runtime, ops: seq<Op>)
    ensures Perform(rt, ops).0.data.views == rt.data.views + Published(ops)
    decreases |ops|
  {
    if ops == [] {
      assert rt.data.views + [] == rt.data.views;
    } else {
      var rt1 := Step(rt, ops[0]).0;
      ViewsArePublished(rt1, ops[1..]);
      var now := if ViewOf(ops[0]).Some? then [ViewOf(ops[0]).value] else [];
      assert rt1.data.views == rt.data.views + now;
      assert rt.data.views + now + Published(ops[1..]) == rt.data.views + (now + Published(ops[1..]));
    }
  }

  /** The effect of the first operation to apply a proper one. */
  function FirstEffect(ops: seq<Op>): Option<Effect> {
    if ops == [] then None
    else if Applies(ops[0]) then Some(ops[0].proposal.effect)
    else FirstEffect(ops[1..])
  }

  function AsSeq(effect: Option<Effect>): seq<Effect> { if effect.Some? then [effect.value] else [] }

  /** The effect recorded is the first one applied, if automations were granted. */
  lemma {:induction false} EffectIsFirst(rt: Runtime, ops: seq<Op>)
    ensures var effects := Perform(rt, ops).0.data.effects;
      effects == if rt.data.effects != [] || rt.data.automations.None? then rt.data.effects else AsSeq(FirstEffect(ops))
    decreases |ops|
  {
    if ops != [] {
      EffectIsFirst(Step(rt, ops[0]).0, ops[1..]);
      assert [] + AsSeq(FirstEffect(ops)) == AsSeq(FirstEffect(ops));
    }
  }

  /** What each operation is told: `get` reads what the earlier ones of the same
      request stored, the lists are those granted, and an effect is refused for the
      first reason that applies. */
  ghost predicate ToldRight(d: Data, ops: seq<Op>, i: nat, a: Answer)
    requires i < |ops|
  {
    match ops[i]
    case Get(key, fallback) =>
      var now := Stored(d.storage, ops[..i]);
      a == Got(if key in now then now[key] else fallback)
    case ListThreads => a == if d.threads.None? then Refused(ThreadsNotGranted) else Listed(d.threads.value)
    case ListAutomations =>
      a == if d.automations.None? then Refused(AutomationsNotGranted) else Listed(d.automations.value)
    case Apply(proposal) =>
      if d.automations.None? then a == Refused(AutomationsNotGranted)
      else if proposal.Malformed? then a == Refused(MalformedEffect)
      else if FirstEffect(ops[..i]).Some? then a == Refused(SecondEffect)
      else a == if proposal.Uncloneable? then Refused(UncloneableEffect) else Done
    case Set(_, _) => a == Done
    case Delete(_) => a == Done
    case Publish(_) => a == Done
    case PublishSuggestions(_, _, _) => a == Done
    case ClearSuggestions(_, _) => a == Done
    case Dispose(_) => a == Done
    case _ => true
  }

  lemma DataAnswers(rt: Runtime, ops: seq<Op>, i: nat)
    requires i < |ops| && rt.data.effects == []
    ensures ToldRight(rt.data, ops, i, Perform(rt, ops).1[i])
  {
    AnswerAt(rt, ops, i);
    PerformData(rt, ops[..i]);
    EffectIsFirst(rt, ops[..i]);
    hide Perform, Stored, FirstEffect, OfKind, Without;
  }

  /** What is registered does not depend on the request's data. */
  lemma {:induction false} RegistrationsAlone(rt: Runtime, d: Data, ops: seq<Op>)
    ensures Perform(rt, ops).0.regs == Perform(Runtime(rt.regs, d), ops).0.regs
    decreases |ops|
  {
    if ops != [] {
      var rt1, rt2 := Step(rt, ops[0]).0, Step(Runtime(rt.regs, d), ops[0]).0;
      assert rt1.regs == rt2.regs;
      RegistrationsAlone(rt1, rt2.data, ops[1..]);
      hide Register, Effectuate;
    }
  }
}
