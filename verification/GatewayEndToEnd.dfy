/** The reader and the caller together: what the caller has received is what the
    gateway wrote. */
module GatewayEndToEnd {
  import opened GatewayRules
  import opened GatewayTheorems
  import R = GatewayReader

  function Frames(xs: seq<Arrival>): seq<Frame> { seq(|xs|, i requires 0 <= i < |xs| => xs[i].frame) }

  /** The frames that are still to come. */
  function Coming(inbox: seq<Receipt>): seq<Frame> {
    if inbox == [] then [] else (if inbox[0].Incoming? then [inbox[0].frame] else []) + Coming(inbox[1..])
  }

  /** The frames received, then those to come. */
  function Delivered(s: State): seq<Frame> { Frames(s.history) + Coming(s.inbox) }

  lemma ReceivingMovesOne(s: State)
    ensures Delivered(NothingReceived(s)) == Delivered(s) || (s.inbox != [] && s.inbox[0].Incoming?)
    ensures s.inbox != [] && s.inbox[0].Incoming? ==> Delivered(Received(s)) == Delivered(s)
  {
    if s.inbox != [] && s.inbox[0].Incoming? {
      var frame, rest := s.inbox[0].frame, Coming(s.inbox[1..]);
      assert Frames(s.history + [Hand(s)]) == Frames(s.history) + [frame];
      assert Frames(s.history) + [frame] + rest == Frames(s.history) + ([frame] + rest);
    }
  }

  lemma {:induction false} AwaitReplyKeepsFrames(s: State, id: nat)
    ensures Delivered(AwaitReply(s, id).state) == Delivered(s)
    decreases |s.inbox|
  {
    ReceivingMovesOne(s);
    if SetsAside(s, id) {
      var next, a := SettingAside(s, id);
      AwaitReplyKeepsFrames(next, id);
      assert Delivered(next) == Delivered(Received(s));
    }
  }

  lemma {:induction false} ScanKeepsFrames(s: State, remaining: seq<Arrival>, p: Predicate)
    ensures Delivered(Scan(s, remaining, p).state) == Delivered(s)
    decreases |s.pending| + |s.inbox|
  {
    ReceivingMovesOne(s);
    if s.pending != [] || (s.inbox != [] && s.inbox[0].Incoming?) {
      var a := if s.pending != [] then s.pending[0] else Hand(s);
      var t := if s.pending != [] then s.(pending := s.pending[1..]) else Received(s);
      ScanKeepsFrames(t, remaining + [a], p);
      ScanKeepsFrames(Written(t).(declined := t.declined + [a]), remaining, p);
    }
  }

  /** No call loses, invents or reorders a frame. */
  lemma {:induction false} RunKeepsFrames(s: State, calls: seq<Call>)
    ensures Delivered(Run(s, calls).0) == Delivered(s)
    decreases |calls|
  {
    if calls != [] {
      match calls[0] {
        case CallRequest => AwaitReplyKeepsFrames(Sent(s), s.nextId);
        case CallWait(p) => ScanKeepsFrames(s, [], p);
      }
      RunKeepsFrames(Perform(s, calls[0]).state, calls[1..]);
    }
  }

  // ---- the queue between them ----

  /** What the caller gets for an item taken off the queue. */
  function ReceiptOf(item: R.Item, parse: R.Line -> Frame): Receipt {
    if item.Frame? then Incoming(parse(item.line)) else ReaderFailed
  }

  function ReceiptsOf(items: seq<R.Item>, parse: R.Line -> Frame): seq<Receipt> {
    seq(|items|, i requires 0 <= i < |items| => ReceiptOf(items[i], parse))
  }

  /** The receives that took something off the queue. */
  function WithoutTimeouts(inbox: seq<Receipt>): seq<Receipt> {
    if inbox == [] then [] else (if inbox[0].TimedOut? then [] else [inbox[0]]) + WithoutTimeouts(inbox[1..])
  }

  function ParseAll(lines: seq<R.Line>, parse: R.Line -> Frame): seq<Frame> {
    seq(|lines|, i requires 0 <= i < |lines| => parse(lines[i]))
  }

  lemma {:induction false} TimeoutsBringNothing(inbox: seq<Receipt>)
    ensures Coming(WithoutTimeouts(inbox)) == Coming(inbox)
  {
    if inbox != [] {
      TimeoutsBringNothing(inbox[1..]);
      var rest := WithoutTimeouts(inbox[1..]);
      if inbox[0].TimedOut? {
        assert WithoutTimeouts(inbox) == rest;
      } else {
        assert WithoutTimeouts(inbox) == [inbox[0]] + rest && ([inbox[0]] + rest)[1..] == rest;
      }
    }
  }

  lemma {:induction false} TakenBringsLines(items: seq<R.Item>, parse: R.Line -> Frame)
    ensures Coming(ReceiptsOf(items, parse)) == ParseAll(R.LinesIn(items), parse)
  {
    if items != [] {
      TakenBringsLines(items[1..], parse);
      assert ReceiptsOf(items, parse)[1..] == ReceiptsOf(items[1..], parse);
    }
  }

  lemma StartFrames(inbox: seq<Receipt>, writes: seq<bool>)
    ensures Delivered(Start(inbox, writes)) == Coming(inbox)
  {
    assert Frames([]) == [];
  }

  /** In every interleaving of reader and caller, with any timeouts, any calls and
      any write failures: the frames the client has received are the first of the
      valid lines of the gateway's byte stream that come before its first faulty one,
      in order, none left out. Those taken
      off the queue and not yet received follow. */
  lemma HistoryIsStreamPrefix(stream: R.Line, steps: seq<R.Step>, decode: R.Decoder, parse: R.Line -> Frame,
                              inbox: seq<Receipt>, writes: seq<bool>, calls: seq<Call>)
    requires WithoutTimeouts(inbox) == ReceiptsOf(R.Exec(stream, steps, decode).taken, parse)
    ensures var s := Run(Start(inbox, writes), calls).0;
      && Frames(s.history) <= Delivered(s)
      && Delivered(s) <= ParseAll(R.LinesIn(R.Ideal(R.Lines(stream), decode)), parse)
      && Delivered(s) <= ParseAll(R.GoodLines(R.Lines(stream), decode), parse)
  {
    RunKeepsFrames(Start(inbox, writes), calls);
    StartFrames(inbox, writes);
    TimeoutsBringNothing(inbox);
    TakenBringsLines(R.Exec(stream, steps, decode).taken, parse);
    R.TakenIsPrefixOfStream(stream, steps, decode);
    hide R.Exec, Run, R.LinesIn, R.GoodLines, R.Lines, R.Ideal, Coming, WithoutTimeouts;
  }
}
