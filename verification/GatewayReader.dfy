/** The thread that reads the gateway's output and the bounded queue between it
    and the caller, as a transition system over every interleaving of the two. */
module GatewayReader {
  import opened Basics

  const MAX_FRAME_BYTES: nat := 256 * 1024
  const QUEUE_SIZE: nat := 32
  const NEWLINE: Byte := 10

  type Line = seq<Byte>

  /** `TooDeep`: nested so deeply that the decoder gives up with an error the reader
      does not catch. */
  datatype Verdict = Valid | BadJson | BadEnvelope | TooDeep

  /** How a line decodes. */
  type Decoder = Line -> Verdict

  datatype Reason = StreamClosed | Oversized | InvalidJson | InvalidEnvelope | ReadFailed

  datatype Item = Frame(line: Line) | Marker(reason: Reason)

  // ---- the byte stream, cut into whole lines ----

  /** The length of the first line, its newline included. */
  function LineEnd(s: Line): (n: nat)
    ensures n <= |s| && (s != [] ==> n > 0)
  {
    if s == [] then 0 else if s[0] == NEWLINE then 1 else 1 + LineEnd(s[1..])
  }

  function Lines(s: Line): seq<Line>
    decreases |s|
  {
    if s == [] then [] else [s[..LineEnd(s)]] + Lines(s[LineEnd(s)..])
  }

  predicate Blank(line: Line) { forall b :: b in line ==> b == 32 || 9 <= b <= 13 }

  /** A line the caller should get. */
  predicate Good(line: Line, decode: Decoder) {
    |line| <= MAX_FRAME_BYTES && !Blank(line) && decode(line).Valid?
  }

  /** A line that ends the reader without a marker. */
  predicate Kills(line: Line, decode: Decoder) {
    |line| <= MAX_FRAME_BYTES && !Blank(line) && decode(line).TooDeep?
  }

  function Fault(line: Line, decode: Decoder): Option<Reason> {
    if |line| > MAX_FRAME_BYTES then Some(Oversized)
    else if Blank(line) then None
    else match decode(line)
      case BadJson => Some(InvalidJson)
      case BadEnvelope => Some(InvalidEnvelope)
      case _ => None
  }

  /** The kinds of lines there are: too long, blank, and those that decoding decides. */
  lemma KindsOfLines(line: Line, decode: Decoder)
    ensures Fault(line, decode) == Some(Oversized) <==> |line| > 262144
    ensures (forall b :: b in line ==> b in [9, 10, 11, 12, 13, 32]) <==> Blank(line)
    ensures |line| <= 262144 && !Blank(line) ==>
      && (Good(line, decode) <==> decode(line).Valid?)
      && (Fault(line, decode) == Some(InvalidJson) <==> decode(line).BadJson?)
      && (Fault(line, decode) == Some(InvalidEnvelope) <==> decode(line).BadEnvelope?)
      && (Kills(line, decode) <==> decode(line).TooDeep?)
  {}

  /** What a reader of whole lines would hand over: the good lines before the
      first faulty one, then a marker, unless the fault kills it. */
  function Ideal(lines: seq<Line>, decode: Decoder): seq<Item> {
    if lines == [] then [Marker(StreamClosed)]
    else
      var fault := Fault(lines[0], decode);
      if fault.Some? then [Marker(fault.value)]
      else if Kills(lines[0], decode) then []
      else if Blank(lines[0]) then Ideal(lines[1..], decode)
      else [Frame(lines[0])] + Ideal(lines[1..], decode)
  }

  // ---- the bounded reads ----

  /** `readline(limit)`: how many bytes it returns. */
  function ReadEnd(s: Line, limit: nat): (n: nat)
    ensures n <= |s| && (s != [] && limit > 0 ==> n > 0)
  {
    if s == [] || limit == 0 then 0 else if s[0] == NEWLINE then 1 else 1 + ReadEnd(s[1..], limit - 1)
  }

  /** What the reader hands over, one `readline(MAX_FRAME_BYTES + 1)` at a time. */
  function Script(s: Line, decode: Decoder): seq<Item>
    decreases |s|
  {
    if s == [] then [Marker(StreamClosed)] else
    var line := s[..ReadEnd(s, MAX_FRAME_BYTES + 1)];
    var rest := s[ReadEnd(s, MAX_FRAME_BYTES + 1)..];
    if Fault(line, decode).Some? then [Marker(Fault(line, decode).value)]
    else if Kills(line, decode) then []
    else if Blank(line) then Script(rest, decode)
    else [Frame(line)] + Script(rest, decode)
  }

  lemma {:induction false} ReadEndIsCapped(s: Line, limit: nat)
    ensures LineEnd(s) <= limit ==> ReadEnd(s, limit) == LineEnd(s)
    ensures limit <= LineEnd(s) ==> ReadEnd(s, limit) == limit
    decreases limit
  {
    if s != [] && limit > 0 && s[0] != NEWLINE { ReadEndIsCapped(s[1..], limit - 1); }
  }

  /** Bounding each read does not change what is handed over: reading in capped
      pieces agrees with cutting the whole stream into lines first. */
  lemma {:induction false} ScriptIsIdeal(s: Line, decode: Decoder)
    ensures Script(s, decode) == Ideal(Lines(s), decode)
    decreases |s|
  {
    if s != [] {
      ReadEndIsCapped(s, MAX_FRAME_BYTES + 1);
      var whole := s[..LineEnd(s)];
      assert Lines(s) == [whole] + Lines(s[LineEnd(s)..]);
      if LineEnd(s) <= MAX_FRAME_BYTES {
        ScriptIsIdeal(s[LineEnd(s)..], decode);
      }
    }
  }

  /** All frames are good, and a marker can only come last. */
  ghost predicate Wellformed(items: seq<Item>, decode: Decoder) {
    && (forall i :: 0 <= i < |items| - 1 ==> items[i].Frame?)
    && (forall i :: 0 <= i < |items| && items[i].Frame? ==> Good(items[i].line, decode))
  }

  /** A line that kills the reader comes before any other fault. */
  ghost predicate Killed(lines: seq<Line>, decode: Decoder) { exists i :: KilledAt(lines, decode, i) }

  ghost predicate KilledAt(lines: seq<Line>, decode: Decoder, i: int) {
    0 <= i < |lines| && Kills(lines[i], decode) && forall j :: 0 <= j < i ==> Passes(lines[j], decode)
  }

  lemma KilledUnfolds(lines: seq<Line>, decode: Decoder)
    requires lines != []
    ensures Killed(lines, decode)
      <==> Kills(lines[0], decode) || (Passes(lines[0], decode) && Killed(lines[1..], decode))
  {
    var rest := lines[1..];
    if Kills(lines[0], decode) { assert KilledAt(lines, decode, 0); }
    if i :| KilledAt(lines, decode, i) && i > 0 {
      forall j | 0 <= j < i - 1 ensures Passes(rest[j], decode) { assert rest[j] == lines[j + 1]; }
      assert KilledAt(rest, decode, i - 1);
    }
    if Passes(lines[0], decode) {
      if i :| KilledAt(rest, decode, i) {
        forall j | 0 <= j < i + 1 ensures Passes(lines[j], decode) { if j > 0 { assert lines[j] == rest[j - 1]; } }
        assert KilledAt(lines, decode, i + 1);
      }
    }
  }

  /** A marker follows exactly unless the reader is killed first. */
  lemma {:induction false} MarkerUnlessKilled(lines: seq<Line>, decode: Decoder)
    ensures (exists x :: x in Ideal(lines, decode) && x.Marker?) <==> !Killed(lines, decode)
  {
    if lines == [] {
      assert Marker(StreamClosed) in Ideal(lines, decode);
    } else {
      KilledUnfolds(lines, decode);
      MarkerUnlessKilled(lines[1..], decode);
      hide Killed;
      var fault := Fault(lines[0], decode);
      if fault.Some? {
        assert Marker(fault.value) in Ideal(lines, decode);
      } else if Passes(lines[0], decode) {
        assert Ideal(lines, decode) == (if Blank(lines[0]) then [] else [Frame(lines[0])]) + Ideal(lines[1..], decode);
      }
    }
  }

  /** The reader goes on after this line. */
  predicate Passes(line: Line, decode: Decoder) { Fault(line, decode).None? && !Kills(line, decode) }

  lemma {:induction false} ScriptIsWellformed(s: Line, decode: Decoder)
    ensures Wellformed(Script(s, decode), decode)
    decreases |s|
  {
    if s != [] {
      ScriptIsWellformed(s[ReadEnd(s, MAX_FRAME_BYTES + 1)..], decode);
    }
  }

  // ---- reader thread, queue and caller ----

  datatype State = State(
    unread: Line,
    hand: Option<Item>,   // being put on the queue
    queue: seq<Item>,
    taken: seq<Item>,
    closed: bool,
    ended: bool)          // the reader has returned
  {
    function Out(): seq<Item> { taken + queue + (if hand.Some? then [hand.value] else []) }
  }

  datatype Step = Read | ReadFails | Put | Abandon | Take | Close

  predicate Enabled(s: State, step: Step) {
    match step
    case Read => !s.ended && s.hand.None?
    case ReadFails => !s.ended && s.hand.None?
    case Put => s.hand.Some? && |s.queue| < QUEUE_SIZE
    case Abandon => !s.ended && s.closed   // closed is seen before a put or a read
    case Take => s.queue != []
    case Close => true
  }

  function Do(s: State, step: Step, decode: Decoder): State {
    if !Enabled(s, step) then s else
    match step
    case Read =>
      var n := ReadEnd(s.unread, MAX_FRAME_BYTES + 1);
      var line := s.unread[..n];
      if line == [] then s.(hand := Some(Marker(StreamClosed)))
      else if Fault(line, decode).Some? then s.(hand := Some(Marker(Fault(line, decode).value)))
      else if Kills(line, decode) then s.(ended := true)
      else if Blank(line) then s.(unread := s.unread[n..])
      else s.(unread := s.unread[n..], hand := Some(Frame(line)))
    case ReadFails => s.(hand := Some(Marker(ReadFailed)))
    case Put => s.(queue := s.queue + [s.hand.value], hand := None, ended := s.hand.value.Marker?)
    case Abandon => s.(hand := None, ended := true)
    case Take => s.(taken := s.taken + [s.queue[0]], queue := s.queue[1..])
    case Close => s.(closed := true)
  }

  function Exec(stream: Line, steps: seq<Step>, decode: Decoder): State
    decreases |steps|
  {
    if steps == [] then State(stream, None, [], [], false, false)
    else Do(Exec(stream, steps[..|steps| - 1], decode), steps[|steps| - 1], decode)
  }

  ghost predicate AllFrames(items: seq<Item>) { forall x :: x in items ==> x.Frame? }

  /** `items` is a beginning of the script, or frames of it cut short by a failed
      read. */
  ghost predicate Faithful(items: seq<Item>, script: seq<Item>) {
    items <= script || exists cut: seq<Item> :: cut <= script && AllFrames(cut) && items == cut + [Marker(ReadFailed)]
  }

  ghost predicate Inv(s: State, stream: Line, decode: Decoder) {
    && |s.queue| <= QUEUE_SIZE
    && Faithful(s.Out(), Script(stream, decode))
    && (!s.ended && (s.hand.None? || s.hand.value.Frame?) ==>
          AllFrames(s.Out()) && s.Out() + Script(s.unread, decode) == Script(stream, decode))
    && (!s.ended && s.hand.Some? && s.hand.value.Marker? ==> AllFrames(s.taken + s.queue))
    && (s.ended ==> s.hand.None?)
  }

  /** What a read hands over is the next thing in the script. */
  lemma ReadFollowsScript(s: State, decode: Decoder)
    requires Enabled(s, Read)
    ensures var t := Do(s, Read, decode); var script := Script(s.unread, decode);
      && t == s.(unread := t.unread, hand := t.hand, ended := t.ended)
      && (t.hand.Some? ==> !t.ended)
      && (t.hand.None? ==> script == if t.ended then [] else Script(t.unread, decode))
      && (t.hand.Some? && t.hand.value.Frame? ==> script == [t.hand.value] + Script(t.unread, decode))
      && (t.hand.Some? && t.hand.value.Marker? ==> script == [t.hand.value])
  {
    hide LineEnd, Lines, Good;
  }

  lemma AllFramesAppend(items: seq<Item>, item: Item)
    requires AllFrames(items) && item.Frame?
    ensures AllFrames(items + [item])
  {
  }

  lemma Regroup(a: seq<Item>, item: Item, c: seq<Item>)
    ensures a + ([item] + c) == (a + [item]) + c && a + [item] <= a + ([item] + c)
  {
    assert (a + ([item] + c))[..|a| + 1] == a + [item];
  }

  lemma ReadKeepsInv(s: State, stream: Line, decode: Decoder)
    requires Inv(s, stream, decode) && Enabled(s, Read)
    ensures Inv(Do(s, Read, decode), stream, decode)
  {
    var t := Do(s, Read, decode);
    ReadFollowsScript(s, decode);
    hide Do, Script, AllFrames;
    var got := s.taken + s.queue;
    assert s.Out() == got;
    if t.hand.None? {
      assert t.Out() == got;
    } else {
      var x := t.hand.value;
      assert t.Out() == got + [x];
      if x.Frame? {
        AllFramesAppend(got, x);
        Regroup(got, x, Script(t.unread, decode));
      }
    }
  }

  lemma DoKeepsInv(s: State, step: Step, stream: Line, decode: Decoder)
    requires Inv(s, stream, decode)
    ensures Inv(Do(s, step, decode), stream, decode)
  {
    if Enabled(s, step) {
      if step.Read? { ReadKeepsInv(s, stream, decode); } else { OtherKeepsInv(s, step, stream, decode); }
    }
  }

  lemma OtherKeepsInv(s: State, step: Step, stream: Line, decode: Decoder)
    requires Inv(s, stream, decode) && Enabled(s, step) && !step.Read?
    ensures Inv(Do(s, step, decode), stream, decode)
  {
    var t := Do(s, step, decode);
    var script := Script(stream, decode);
    hide Script, Fault, Blank, ReadEnd, AllFrames;
    match step {
      case ReadFails =>
        assert s.Out() == t.taken + t.queue && s.Out() <= script;
        assert t.Out() == s.Out() + [Marker(ReadFailed)];
      case Put =>
        assert t.Out() == s.Out();
      case Abandon =>
        ShorterIsFaithful(s, t, script);
      case Take =>
        assert s.queue == [s.queue[0]] + s.queue[1..];
        assert t.taken + t.queue == s.taken + s.queue;
        assert t.Out() == s.Out();
      case Close =>
        assert t.Out() == s.Out();
    }
  }

  lemma ShorterIsFaithful(s: State, t: State, script: seq<Item>)
    requires t == s.(hand := None, ended := true) && Faithful(s.Out(), script)
    ensures Faithful(t.Out(), script)
  {
    if s.hand.Some? {
      assert s.Out() == t.Out() + [s.hand.value];
      if !(s.Out() <= script) {
        var cut: seq<Item> :| cut <= script && AllFrames(cut) && s.Out() == cut + [Marker(ReadFailed)];
        assert s.Out()[..|s.Out()| - 1] == cut;
        assert s.Out()[..|s.Out()| - 1] == t.Out();
      } else {
        assert script[..|t.Out()|] == s.Out()[..|t.Out()|] == t.Out();
      }
    } else {
      assert s.Out() == t.Out();
    }
  }

  lemma {:induction false} InvAlways(stream: Line, steps: seq<Step>, decode: Decoder)
    ensures Inv(Exec(stream, steps, decode), stream, decode)
    decreases |steps|
  {
    if steps == [] {
      var s := Exec(stream, [], decode);
      assert s.Out() == [] && s.Out() + Script(stream, decode) == Script(stream, decode);
    } else {
      InvAlways(stream, steps[..|steps| - 1], decode);
      DoKeepsInv(Exec(stream, steps[..|steps| - 1], decode), steps[|steps| - 1], stream, decode);
    }
  }

  /** The frames of a list of items, in order. */
  function LinesIn(items: seq<Item>): seq<Line> {
    if items == [] then [] else (if items[0].Frame? then [items[0].line] else []) + LinesIn(items[1..])
  }

  function GoodLines(lines: seq<Line>, decode: Decoder): seq<Line> {
    if lines == [] then [] else (if Good(lines[0], decode) then [lines[0]] else []) + GoodLines(lines[1..], decode)
  }

  lemma {:induction false} IdealFramesArePrefix(lines: seq<Line>, decode: Decoder)
    ensures LinesIn(Ideal(lines, decode)) <= GoodLines(lines, decode)
  {
    if lines != [] && Fault(lines[0], decode).None? {
      IdealFramesArePrefix(lines[1..], decode);
      var tail := Ideal(lines[1..], decode);
      if !Blank(lines[0]) {
        assert ([Frame(lines[0])] + tail)[1..] == tail;
      }
    }
  }

  /** How a faulty line, or the end of the stream, shows after the frames. */
  function Ending(lines: seq<Line>, n: nat, decode: Decoder): seq<Item>
    requires n <= |lines|
  {
    if n == |lines| then [Marker(StreamClosed)]
    else if Fault(lines[n], decode).Some? then [Marker(Fault(lines[n], decode).value)]
    else []
  }

  function AsFrames(lines: seq<Line>): seq<Item> { seq(|lines|, i requires 0 <= i < |lines| => Frame(lines[i])) }

  /** What is handed over is exactly the good lines before the first line that does
      not pass, and then the marker for it, if it leaves one. */
  lemma {:induction false} IdealIsGoodUpToFault(lines: seq<Line>, n: nat, decode: Decoder)
    requires n <= |lines|
    requires forall i :: 0 <= i < n ==> Passes(lines[i], decode)
    requires n < |lines| ==> !Passes(lines[n], decode)
    ensures Ideal(lines, decode) == AsFrames(GoodLines(lines[..n], decode)) + Ending(lines, n, decode)
    decreases |lines|
  {
    if n == 0 {
      assert lines[..0] == [] && AsFrames([]) == [];
    } else {
      var line, rest := lines[0], lines[1..];
      forall i | 0 <= i < n - 1 ensures rest[i] == lines[i + 1] {}
      IdealIsGoodUpToFault(rest, n - 1, decode);
      var good := GoodLines(rest[..n - 1], decode);
      assert lines[..n] == [line] + rest[..n - 1] && ([line] + rest[..n - 1])[1..] == rest[..n - 1];
      assert Passes(line, decode) && (Good(line, decode) <==> !Blank(line));
      assert GoodLines(lines[..n], decode) == (if Blank(line) then [] else [line]) + good;
      assert AsFrames([line] + good) == [Frame(line)] + AsFrames(good);
      assert [] + good == good;
      assert [Frame(line)] + (AsFrames(good) + Ending(rest, n - 1, decode))
          == [Frame(line)] + AsFrames(good) + Ending(rest, n - 1, decode);
      hide Blank, Good;
    }
  }

  lemma {:induction false} LinesInPrefix(items: seq<Item>, more: seq<Item>)
    ensures LinesIn(items + more) == LinesIn(items) + LinesIn(more)
  {
    if items == [] {
      assert items + more == more;
    } else {
      assert (items + more)[1..] == items[1..] + more;
      LinesInPrefix(items[1..], more);
    }
  }

  /** Only the last thing handed over can be a marker, and every frame is good. */
  lemma FaithfulShape(items: seq<Item>, script: seq<Item>, decode: Decoder)
    requires Faithful(items, script) && Wellformed(script, decode)
    ensures forall i :: 0 <= i < |items| - 1 ==> items[i].Frame?
    ensures forall x :: x in items && x.Frame? ==> Good(x.line, decode)
  {
    if items <= script {
      assert forall i :: 0 <= i < |items| ==> items[i] == script[i];
    } else {
      var cut: seq<Item> :| cut <= script && AllFrames(cut) && items == cut + [Marker(ReadFailed)];
      assert forall i :: 0 <= i < |cut| ==> items[i] == cut[i] && cut[i] == script[i] && cut[i] in cut;
    }
  }

  lemma FaithfulFrames(items: seq<Item>, script: seq<Item>)
    requires Faithful(items, script)
    ensures LinesIn(items) <= LinesIn(script)
  {
    if items <= script {
      LinesInPrefix(items, script[|items|..]);
      assert script == items + script[|items|..];
    } else {
      var cut: seq<Item> :| cut <= script && AllFrames(cut) && items == cut + [Marker(ReadFailed)];
      LinesInPrefix(cut, script[|cut|..]);
      assert script == cut + script[|cut|..];
      LinesInPrefix(cut, [Marker(ReadFailed)]);
      assert LinesIn([Marker(ReadFailed)]) == [];
    }
  }

  /** What holds of all that was handed over holds of the part taken so far. */
  lemma TakenIsFaithful(s: State, stream: Line, decode: Decoder)
    requires Inv(s, stream, decode)
    ensures LinesIn(s.taken) <= LinesIn(Script(stream, decode))
    ensures forall i :: 0 <= i < |s.taken| - 1 ==> s.taken[i].Frame?
    ensures forall x :: x in s.taken && x.Frame? ==> Good(x.line, decode)
    ensures s.taken != [] && s.taken[|s.taken| - 1].Marker? ==> s.queue == [] && s.hand == None
  {
    ScriptIsWellformed(stream, decode);
    FaithfulShape(s.Out(), Script(stream, decode), decode);
    FaithfulFrames(s.Out(), Script(stream, decode));
    hide Script, Wellformed, Faithful, Good;
    var later := s.queue + (if s.hand.Some? then [s.hand.value] else []);
    assert s.Out() == s.taken + later;
    LinesInPrefix(s.taken, later);
    assert forall i :: 0 <= i < |s.taken| ==> s.Out()[i] == s.taken[i];
  }

  /** In every interleaving of reader and caller: the queue holds at most 32
      entries, the frames taken are a beginning of the stream's good lines, in
      order, and at most one error marker is taken, after every frame. */
  lemma TakenIsPrefixOfStream(stream: Line, steps: seq<Step>, decode: Decoder)
    ensures var s := Exec(stream, steps, decode);
      && |s.queue| <= 32
      && LinesIn(s.taken) <= LinesIn(Ideal(Lines(stream), decode)) <= GoodLines(Lines(stream), decode)
      && (forall i :: 0 <= i < |s.taken| - 1 ==> s.taken[i].Frame?)
      && (forall x :: x in s.taken && x.Frame? ==> Good(x.line, decode))
      && (s.taken != [] && s.taken[|s.taken| - 1].Marker? ==> s.ended && s.queue == [] && s.hand == None)
  {
    var s := Exec(stream, steps, decode);
    InvAlways(stream, steps, decode);
    TakenIsFaithful(s, stream, decode);
    if s.taken != [] && s.taken[|s.taken| - 1].Marker? { MarkerTakenMeansEnded(s, stream, decode); }
    ScriptIsIdeal(stream, decode);
    IdealFramesArePrefix(Lines(stream), decode);
    hide Exec, Script, Ideal, LinesIn, GoodLines, Lines;
  }

  lemma MarkerTakenMeansEnded(s: State, stream: Line, decode: Decoder)
    requires Inv(s, stream, decode) && s.taken != [] && s.taken[|s.taken| - 1].Marker?
    ensures s.ended
  {
    assert s.taken[|s.taken| - 1] in s.taken;
    assert s.taken[|s.taken| - 1] in s.Out();
  }

  // ---- reader and caller left to run ----

  /** What is under way reaches the caller. */
  function Flush(s: State, decode: Decoder): State
    decreases (if s.hand.Some? then 2 else 0) + |s.queue|
  {
    if s.queue != [] then Flush(Do(s, Take, decode), decode)
    else if s.hand.Some? then Flush(Do(s, Put, decode), decode)
    else s
  }

  lemma {:induction false} FlushTakesAll(s: State, decode: Decoder)
    ensures var t := Flush(s, decode);
      && t.taken == s.Out() && t.queue == [] && t.hand == None && t.unread == s.unread
      && t.ended == if s.hand.Some? then s.hand.value.Marker? else s.ended
    decreases (if s.hand.Some? then 2 else 0) + |s.queue|
  {
    if s.queue != [] {
      FlushTakesAll(Do(s, Take, decode), decode);
      assert s.queue == [s.queue[0]] + s.queue[1..];
      assert s.taken + [s.queue[0]] + s.queue[1..] == s.taken + s.queue;
    } else if s.hand.Some? {
      FlushTakesAll(Do(s, Put, decode), decode);
      assert s.taken + [] + [s.hand.value] == s.taken + ([] + [s.hand.value]) + [];
    } else {
      assert s.taken + [] + [] == s.taken;
    }
  }

  /** The reader reads once, and what it hands over is put and taken. */
  function Cycle(s: State, decode: Decoder): State { Flush(Do(s, Read, decode), decode) }

  lemma CycleFollowsScript(s: State, decode: Decoder)
    requires !s.ended && s.hand.None? && s.queue == []
    ensures var t := Cycle(s, decode);
      && t.hand == None && t.queue == []
      && s.taken + Script(s.unread, decode) == t.taken + (if t.ended then [] else Script(t.unread, decode))
      && |t.unread| <= |s.unread| && (!t.ended ==> |t.unread| < |s.unread|)
  {
    var r := Do(s, Read, decode);
    ReadFollowsScript(s, decode);
    FlushTakesAll(r, decode);
    ReadShortens(s, decode);
    hide Do, Flush, Script;
    assert s.taken + [] == s.taken;
    if r.hand.Some? {
      var x := r.hand.value;
      assert s.taken + [] + [x] == s.taken + [x];
      if x.Frame? { Regroup(s.taken, x, Script(r.unread, decode)); }
    }
  }

  lemma ReadShortens(s: State, decode: Decoder)
    requires Enabled(s, Read)
    ensures var t := Do(s, Read, decode);
      && |t.unread| <= |s.unread|
      && (t.ended || (t.hand.Some? && t.hand.value.Marker?) || |t.unread| < |s.unread|)
  {}

  /** Until the reader has returned. */
  function Drain(s: State, decode: Decoder): State
    requires s.hand.None? && s.queue == []
    decreases |s.unread|, !s.ended
  {
    if s.ended then s else
    CycleFollowsScript(s, decode);
    Drain(Cycle(s, decode), decode)
  }

  lemma {:induction false} DrainFollowsScript(s: State, decode: Decoder)
    requires s.hand.None? && s.queue == []
    ensures Drain(s, decode).taken == s.taken + (if s.ended then [] else Script(s.unread, decode))
    decreases |s.unread|, !s.ended
  {
    if s.ended {
      assert s.taken + [] == s.taken;
    } else {
      CycleFollowsScript(s, decode);
      DrainFollowsScript(Cycle(s, decode), decode);
      hide Cycle, Script;
    }
  }

  /** From every state in which the reader is still reading, left to run, the caller
      gets all that it should: the good lines before the first faulty one, none left
      out, and the marker. */
  lemma AllIsDelivered(stream: Line, steps: seq<Step>, decode: Decoder)
    requires var s := Exec(stream, steps, decode); !s.ended && (s.hand.None? || s.hand.value.Frame?)
    ensures var s := Flush(Exec(stream, steps, decode), decode);
      && s.hand.None? && s.queue == []
      && Drain(s, decode).taken == Ideal(Lines(stream), decode)
  {
    var s := Exec(stream, steps, decode);
    InvAlways(stream, steps, decode);
    ScriptIsIdeal(stream, decode);
    FlushTakesAll(s, decode);
    DrainFollowsScript(Flush(s, decode), decode);
    hide Exec, Flush, Drain, Script, Ideal, Lines;
  }

  // ---- the reader's loop ----

  /** `readline`, byte by byte. */
  method ReadLine(s: Line, limit: nat) returns (n: nat)
    ensures n == ReadEnd(s, limit)
  {
    n := 0;
    assert s[0..] == s;
    while n < |s| && n < limit
      invariant n <= |s| && n <= limit
      invariant ReadEnd(s, limit) == n + ReadEnd(s[n..], limit - n)
    {
      assert s[n..][1..] == s[n + 1..];
      n := n + 1;
      if s[n - 1] == NEWLINE { return; }
    }
  }

  /** `_read_stdout`, with nobody closing the client meanwhile. What was handed over
      is as it should be even when the reader is killed. */
  method ReadStdout(stream: Line, decode: Decoder) returns (items: seq<Item>)
    ensures items == Ideal(Lines(stream), decode)
  {
    ScriptIsIdeal(stream, decode);
    items := [];
    var unread := stream;
    while true
      invariant items + Script(unread, decode) == Script(stream, decode)
      decreases |unread|
    {
      var n := ReadLine(unread, MAX_FRAME_BYTES + 1);
      var line := unread[..n];
      if line == [] {
        return items + [Marker(StreamClosed)];
      }
      if |line| > MAX_FRAME_BYTES {
        return items + [Marker(Oversized)];
      }
      if Blank(line) {
        unread := unread[n..];
        continue;
      }
      match decode(line) {
        case BadJson => return items + [Marker(InvalidJson)];
        case BadEnvelope => return items + [Marker(InvalidEnvelope)];
        case TooDeep =>
          assert items + [] == items;
          return;
        case Valid =>
          ghost var later := Script(unread[n..], decode);
          assert items + ([Frame(line)] + later) == items + [Frame(line)] + later;
          items := items + [Frame(line)];
          unread := unread[n..];
      }
    }
  }
}
