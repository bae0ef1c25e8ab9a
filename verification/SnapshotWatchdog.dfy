/** The browser-snapshot watchdog: guards that send `Started` and `Finished`
    over a channel, and a monitor thread that keeps a map of deadlines, sleeps
    until the earliest one and fires once.

    The protocol is a transition system whose steps are the atomic actions of
    the threads involved. A run is any list of steps; a step that is not enabled
    leaves the state unchanged, so a statement about every list of steps is a
    statement about every interleaving. */
module SnapshotWatchdog {
  import opened Basics

  type Time = nat

  datatype Event = Started(id: nat, deadline: Time) | Finished(id: nat)

  /** Where the monitor thread is. `Computed` lies between reading the clock for
      the timeout and entering the timed receive; `sampled` and `entered` are the
      two clock readings. */
  datatype Phase =
    | Top
    | Computed(earliest: Time, sampled: Time)
    | Waiting(earliest: Time, sampled: Time, entered: Time)
    | Blocked
    | Expired
    | Returned

  /** A guard under construction: its id is taken, then its deadline is read off
      the clock, then `Started` is sent. */
  datatype Draft = Reserved | Stamped(deadline: Time)

  datatype State = State(
    clock: Time,
    queue: seq<Event>,
    pending: map<nat, Time>,
    phase: Phase,
    nextId: nat,
    spare: nat,               // sender clones outside any guard
    drafts: map<nat, Draft>,  // each owns a sender
    live: map<nat, Time>,     // guards not yet dropped; each owns a sender
    closing: set<nat>)        // dropped guards whose sender is not yet released
  {
    predicate Running() { !phase.Expired? && !phase.Returned? }

    predicate Senders() { spare > 0 || drafts != map[] || live != map[] || closing != {} }

    /** Some live guard's deadline has passed. */
    ghost predicate Overdue() { exists id :: id in live && live[id] <= clock }
  }

  datatype Step =
    | Tick(elapsed: nat)
    | CloneSender
    | DropSender
    | Reserve
    | Stamp(id: nat, limit: nat)
    | Send(id: nat)
    | BeginDrop(id: nat)
    | Release(id: nat)
    | Sample
    | Enter
    | Receive
    | Timeout
    | Disconnect

  function Later(a: Time, b: Time): Time { if a < b then b else a }

  /** `saturating_duration_since` */
  function Since(a: Time, b: Time): nat { if a < b then 0 else a - b }

  /** The moment at which the timed receive gives up. */
  function WakeAt(p: Phase): Time
    requires p.Waiting?
  {
    p.entered + Since(p.earliest, p.sampled)
  }

  function Record(pending: map<nat, Time>, e: Event): map<nat, Time> {
    match e
    case Started(id, deadline) => pending[id := deadline]
    case Finished(id) => pending - {id}
  }

  /** What the monitor's map becomes once it has taken all of `queue`. */
  function Replay(pending: map<nat, Time>, queue: seq<Event>): map<nat, Time>
    decreases |queue|
  {
    if queue == [] then pending else Replay(Record(pending, queue[0]), queue[1..])
  }

  ghost predicate IsEarliest(t: Time, pending: map<nat, Time>) {
    (exists id :: id in pending && pending[id] == t) && (forall id :: id in pending ==> t <= pending[id])
  }

  lemma EarliestExists(pending: map<nat, Time>)
    requires pending != map[]
    ensures exists t :: IsEarliest(t, pending)
    decreases |pending|
  {
    var id :| id in pending;
    var rest := pending - {id};
    if rest == map[] {
      assert forall k :: k in pending ==> k == id || k in rest;
      assert IsEarliest(pending[id], pending);
    } else {
      EarliestExists(rest);
      var t :| IsEarliest(t, rest);
      assert forall k :: k in pending ==> k == id || k in rest;
      if pending[id] < t {
        assert IsEarliest(pending[id], pending);
      } else {
        var w :| w in rest && rest[w] == t;
        assert pending[w] == t;
        assert IsEarliest(t, pending);
      }
    }
  }

  ghost function Earliest(pending: map<nat, Time>): (t: Time)
    requires pending != map[]
    ensures IsEarliest(t, pending)
  {
    EarliestExists(pending);
    var t :| IsEarliest(t, pending);
    t
  }

  ghost predicate Enabled(s: State, step: Step) {
    match step
    case Tick(_) => true
    case CloneSender => s.spare > 0
    case DropSender => s.spare > 0
    case Reserve => s.spare > 0
    case Stamp(id, _) => id in s.drafts && s.drafts[id].Reserved?
    case Send(id) => id in s.drafts && s.drafts[id].Stamped?
    case BeginDrop(id) => id in s.live
    case Release(id) => id in s.closing
    case Sample => s.phase.Top?
    case Enter => s.phase.Computed?
    // A queued message is delivered before a timeout or a hang-up is reported.
    case Receive => (s.phase.Waiting? || s.phase.Blocked?) && s.queue != []
    case Timeout => s.phase.Waiting? && s.queue == [] && WakeAt(s.phase) <= s.clock
    case Disconnect => (s.phase.Waiting? || s.phase.Blocked?) && s.queue == [] && !s.Senders()
  }

  ghost function Do(s: State, step: Step): State {
    if !Enabled(s, step) then s else
    match step
    case Tick(elapsed) => s.(clock := s.clock + elapsed)
    case CloneSender => s.(spare := s.spare + 1)
    case DropSender => s.(spare := s.spare - 1)
    case Reserve => s.(spare := s.spare - 1, drafts := s.drafts[s.nextId := Reserved], nextId := s.nextId + 1)
    case Stamp(id, limit) => s.(drafts := s.drafts[id := Stamped(s.clock + limit)])
    case Send(id) =>
      var deadline := s.drafts[id].deadline;
      if s.Running() then
        s.(drafts := s.drafts - {id}, live := s.live[id := deadline], queue := s.queue + [Started(id, deadline)])
      else
        s.(drafts := s.drafts - {id})  // the send fails and no guard is made
    case BeginDrop(id) =>
      s.(live := s.live - {id}, closing := s.closing + {id},
         queue := if s.Running() then s.queue + [Finished(id)] else s.queue)
    case Release(id) => s.(closing := s.closing - {id})
    case Sample =>
      s.(phase := if s.pending == map[] then Blocked else Computed(Earliest(s.pending), s.clock))
    case Enter => s.(phase := Waiting(s.phase.earliest, s.phase.sampled, s.clock))
    case Receive => s.(pending := Record(s.pending, s.queue[0]), queue := s.queue[1..], phase := Top)
    case Timeout => s.(phase := Expired)
    case Disconnect => s.(phase := Returned)
  }

  ghost function Init(senders: nat): State {
    State(0, [], map[], Top, 1, senders, map[], map[], {})
  }

  ghost function Exec(senders: nat, steps: seq<Step>): State {
    if steps == [] then Init(senders) else Do(Exec(senders, steps[..|steps| - 1]), steps[|steps| - 1])
  }

  // ---- the invariant ----

  ghost predicate IdsApart(s: State) {
    && s.drafts.Keys !! s.live.Keys
    && s.drafts.Keys !! s.closing
    && s.live.Keys !! s.closing
    && (forall id :: id in s.drafts || id in s.live || id in s.closing ==> id < s.nextId)
  }

  ghost predicate PhaseOk(s: State) {
    match s.phase
    case Computed(earliest, sampled) => IsEarliest(earliest, s.pending) && sampled <= s.clock
    case Waiting(earliest, sampled, entered) => IsEarliest(earliest, s.pending) && sampled <= entered <= s.clock
    case Blocked => s.pending == map[]
    case _ => true
  }

  /** Applying the queued events to the monitor's map gives exactly the live
      guards with their deadlines. */
  ghost predicate Inv(s: State) {
    && IdsApart(s)
    && PhaseOk(s)
    && (s.Running() ==> Replay(s.pending, s.queue) == s.live)
  }

  lemma {:induction false} ReplayAppend(pending: map<nat, Time>, queue: seq<Event>, e: Event)
    ensures Replay(pending, queue + [e]) == Record(Replay(pending, queue), e)
    decreases |queue|
  {
    if queue == [] {
      assert queue + [e] == [e];
      assert Replay(Record(pending, e), [e][1..]) == Record(pending, e);
    } else {
      assert (queue + [e])[1..] == queue[1..] + [e];
      ReplayAppend(Record(pending, queue[0]), queue[1..], e);
    }
  }

  lemma DoKeepsInv(s: State, step: Step)
    requires Inv(s)
    ensures Inv(Do(s, step))
  {
    if Enabled(s, step) {
      match step {
        case Send(id) => ReplayAppend(s.pending, s.queue, Started(id, s.drafts[id].deadline));
        case BeginDrop(id) => ReplayAppend(s.pending, s.queue, Finished(id));
        case _ =>
      }
    }
  }

  lemma {:induction false} InvAlways(senders: nat, steps: seq<Step>)
    ensures Inv(Exec(senders, steps))
    decreases |steps|
  {
    if steps != [] {
      InvAlways(senders, steps[..|steps| - 1]);
      DoKeepsInv(Exec(senders, steps[..|steps| - 1]), steps[|steps| - 1]);
    }
  }

  // ---- safety ----

  /** `on_expiry` runs only while some live guard's deadline has passed. */
  lemma NoFalseExpiry(senders: nat, steps: seq<Step>, step: Step)
    requires !Exec(senders, steps).phase.Expired?
    requires Do(Exec(senders, steps), step).phase.Expired?
    ensures Exec(senders, steps).queue == [] && Exec(senders, steps).Overdue()
  {
    var s := Exec(senders, steps);
    InvAlways(senders, steps);
    var id :| id in s.pending && s.pending[id] == s.phase.earliest;
    assert id in s.live && s.live[id] <= s.clock;
  }

  /** The monitor hangs up only when every guard ever started has been dropped
      and released, so it never returns silently while a guard is live. */
  lemma NoSilentReturn(senders: nat, steps: seq<Step>, step: Step)
    requires !Exec(senders, steps).phase.Returned?
    requires Do(Exec(senders, steps), step).phase.Returned?
    ensures var s := Exec(senders, steps); s.pending == map[] && s.live == map[] && s.drafts == map[]
  {
    InvAlways(senders, steps);
  }

  lemma {:induction false} OriginOfEntry(pending: map<nat, Time>, queue: seq<Event>, id: nat)
    requires id in Replay(pending, queue)
    ensures (id in pending && pending[id] == Replay(pending, queue)[id])
            || Started(id, Replay(pending, queue)[id]) in queue
    decreases |queue|
  {
    if queue != [] {
      OriginOfEntry(Record(pending, queue[0]), queue[1..], id);
    }
  }

  /** A live guard is either already in the monitor's map, so the wake-up is no
      later than its deadline plus the delay with which the wait was entered, or
      its `Started` is still queued, so the next receive returns at once. Starting
      or finishing other guards cannot change that. */
  lemma WakeUpNeverPassesLiveGuard(senders: nat, steps: seq<Step>, id: nat)
    requires var s := Exec(senders, steps); s.Running() && id in s.live
    ensures var s := Exec(senders, steps);
      || Started(id, s.live[id]) in s.queue
      || (&& id in s.pending && s.pending[id] == s.live[id]
          && !s.phase.Blocked?
          && (s.phase.Waiting? ==>
                WakeAt(s.phase) <= Later(s.live[id], s.phase.sampled) + (s.phase.entered - s.phase.sampled)))
  {
    var s := Exec(senders, steps);
    InvAlways(senders, steps);
    OriginOfEntry(s.pending, s.queue, id);
  }

  // ---- where guards and their deadlines come from ----

  /** At step k the deadline of guard `id` is read off the clock. */
  ghost predicate StampedAt(senders: nat, steps: seq<Step>, k: nat, id: nat, limit: nat)
    requires k < |steps|
  {
    steps[k] == Stamp(id, limit) && Enabled(Exec(senders, steps[..k]), steps[k])
  }

  /** The deadline is the time at which it was stamped, plus the limit then given. */
  ghost predicate FromStamp(senders: nat, steps: seq<Step>, id: nat, deadline: Time) {
    exists k, limit :: 0 <= k < |steps| && StampedAt(senders, steps, k, id, limit)
      && Exec(senders, steps[..k]).clock + limit == deadline
  }

  lemma EarlierSteps(steps: seq<Step>, step: Step, k: nat)
    requires k < |steps|
    ensures (steps + [step])[..k] == steps[..k] && (steps + [step])[k] == steps[k]
  {}

  lemma FromStampStays(senders: nat, steps: seq<Step>, step: Step, id: nat, deadline: Time)
    requires FromStamp(senders, steps, id, deadline)
    ensures FromStamp(senders, steps + [step], id, deadline)
  {
    var k, limit :| 0 <= k < |steps| && StampedAt(senders, steps, k, id, limit)
      && Exec(senders, steps[..k]).clock + limit == deadline;
    EarlierSteps(steps, step, k);
    assert StampedAt(senders, steps + [step], k, id, limit);
  }

  lemma FromStampNow(senders: nat, steps: seq<Step>, id: nat, limit: nat)
    requires Enabled(Exec(senders, steps), Stamp(id, limit))
    ensures FromStamp(senders, steps + [Stamp(id, limit)], id, Exec(senders, steps).clock + limit)
  {
    var all, k := steps + [Stamp(id, limit)], |steps|;
    assert all[..k] == steps;
    assert StampedAt(senders, all, k, id, limit);
  }

  /** A stamp sets the deadline to the present time plus the limit; nothing else sets
      one. */
  lemma DeadlinesMove(s: State, step: Step, id: nat)
    ensures var t := Do(s, step);
      id in t.drafts && t.drafts[id].Stamped? ==>
        || (id in s.drafts && s.drafts[id] == t.drafts[id])
        || (exists limit :: step == Stamp(id, limit) && Enabled(s, step) && t.drafts[id].deadline == s.clock + limit)
    ensures var t := Do(s, step);
      id in t.live ==>
        || (id in s.live && s.live[id] == t.live[id])
        || (id in s.drafts && s.drafts[id].Stamped? && s.drafts[id].deadline == t.live[id])
  {}

  /** Every deadline, of a guard under construction or a live one, is its stamp's
      time plus its limit. */
  lemma {:induction false} DeadlineIsStampPlusLimit(senders: nat, steps: seq<Step>, id: nat)
    ensures var s := Exec(senders, steps);
      && (id in s.drafts && s.drafts[id].Stamped? ==> FromStamp(senders, steps, id, s.drafts[id].deadline))
      && (id in s.live ==> FromStamp(senders, steps, id, s.live[id]))
    decreases |steps|
  {
    if steps != [] {
      var n := |steps| - 1;
      var init, step := steps[..n], steps[n];
      var s := Exec(senders, init);
      assert steps == init + [step];
      DeadlineIsStampPlusLimit(senders, init, id);
      DeadlinesMove(s, step, id);
      if id in s.drafts && s.drafts[id].Stamped? { FromStampStays(senders, init, step, id, s.drafts[id].deadline); }
      if id in s.live { FromStampStays(senders, init, step, id, s.live[id]); }
      if step.Stamp? && step.id == id && Enabled(s, step) { FromStampNow(senders, init, id, step.limit); }
      hide Do, FromStamp;
    }
  }

  /** `on_expiry` runs only when some live guard's deadline was stamped at least its
      limit ago. */
  lemma ExpiryMeansOverrun(senders: nat, steps: seq<Step>, step: Step)
    requires !Exec(senders, steps).phase.Expired?
    requires Do(Exec(senders, steps), step).phase.Expired?
    ensures exists k, id, limit ::
      && 0 <= k < |steps| && StampedAt(senders, steps, k, id, limit)
      && id in Exec(senders, steps).live
      && Exec(senders, steps[..k]).clock + limit <= Exec(senders, steps).clock
  {
    NoFalseExpiry(senders, steps, step);
    hide Do;
    var s := Exec(senders, steps);
    var id :| id in s.live && s.live[id] <= s.clock;
    DeadlineIsStampPlusLimit(senders, steps, id);
    var k, limit :| 0 <= k < |steps| && StampedAt(senders, steps, k, id, limit)
      && Exec(senders, steps[..k]).clock + limit == s.live[id];
  }

  /** At step k the guard is started. */
  ghost predicate SentAt(senders: nat, steps: seq<Step>, k: nat, id: nat)
    requires k < |steps|
  {
    var s := Exec(senders, steps[..k]);
    steps[k] == Send(id) && Enabled(s, steps[k]) && s.Running()
  }

  /** At step k the guard is dropped. */
  ghost predicate DroppedAt(senders: nat, steps: seq<Step>, k: nat, id: nat)
    requires k < |steps|
  {
    steps[k] == BeginDrop(id) && Enabled(Exec(senders, steps[..k]), steps[k])
  }

  ghost predicate StartedAndKept(senders: nat, steps: seq<Step>, id: nat) {
    exists k :: 0 <= k < |steps| && KeptSince(senders, steps, k, id)
  }

  ghost predicate KeptSince(senders: nat, steps: seq<Step>, k: nat, id: nat)
    requires k < |steps|
  {
    SentAt(senders, steps, k, id) && forall m :: k < m < |steps| ==> !DroppedAt(senders, steps, m, id)
  }

  lemma KeptSinceMove(senders: nat, steps: seq<Step>, step: Step, k: nat, id: nat)
    requires k < |steps|
    ensures KeptSince(senders, steps + [step], k, id)
      <==> KeptSince(senders, steps, k, id) && !(step == BeginDrop(id) && Enabled(Exec(senders, steps), step))
  {
    var all := steps + [step];
    EarlierSteps(steps, step, k);
    forall m | k < m < |steps| ensures DroppedAt(senders, all, m, id) <==> DroppedAt(senders, steps, m, id) {
      EarlierSteps(steps, step, m);
    }
    assert all[..|steps|] == steps && all[|steps|] == step;
    assert DroppedAt(senders, all, |steps|, id) <==> step == BeginDrop(id) && Enabled(Exec(senders, steps), step);
    hide DroppedAt, Exec, Enabled;
  }

  lemma StartedMove(senders: nat, steps: seq<Step>, step: Step, id: nat)
    ensures var s := Exec(senders, steps);
      StartedAndKept(senders, steps + [step], id) <==>
        || (StartedAndKept(senders, steps, id) && !(step == BeginDrop(id) && Enabled(s, step)))
        || (step == Send(id) && Enabled(s, step) && s.Running())
  {
    var all, n := steps + [step], |steps|;
    assert all[..n] == steps && all[n] == step;
    assert KeptSince(senders, all, n, id)
      <==> step == Send(id) && Enabled(Exec(senders, steps), step) && Exec(senders, steps).Running();
    forall k | 0 <= k < n
      ensures KeptSince(senders, all, k, id)
        <==> KeptSince(senders, steps, k, id) && !(step == BeginDrop(id) && Enabled(Exec(senders, steps), step))
    {
      KeptSinceMove(senders, steps, step, k, id);
    }
    hide KeptSince, Exec, Enabled;
  }

  /** The live guards are exactly those started while the monitor ran and not dropped
      since. */
  lemma {:induction false} LiveIsStartedAndKept(senders: nat, steps: seq<Step>, id: nat)
    ensures id in Exec(senders, steps).live <==> StartedAndKept(senders, steps, id)
    decreases |steps|
  {
    if steps != [] {
      var n := |steps| - 1;
      var init, step := steps[..n], steps[n];
      assert steps == init + [step];
      LiveIsStartedAndKept(senders, init, id);
      StartedMove(senders, init, step, id);
      hide StartedAndKept, Replay;
    }
  }

  /** How many sender clones there are. */
  function SenderCount(s: State): int { s.spare + |s.drafts| + |s.live| + |s.closing| }

  /** Senders are made by cloning and end by being dropped, by a failed start, or with
      their guard; the monitor has none. */
  lemma SendersMove(s: State, step: Step)
    requires IdsApart(s)
    ensures SenderCount(Do(s, step)) == SenderCount(s) +
      (if !Enabled(s, step) then 0
       else match step
         case CloneSender => 1
         case DropSender => -1
         case Send(_) => if s.Running() then 0 else -1
         case Release(_) => -1
         case _ => 0)
  {
    hide Replay;
  }

  // ---- what the monitor does when it is left to run ----

  ghost function Rank(p: Phase): nat {
    match p case Top => 2 case Computed(_, _) => 1 case _ => 0
  }

  /** The monitor runs alone, with the clock standing still, until it sleeps or
      stops. */
  ghost function Settle(s: State): State
    decreases |s.queue|, Rank(s.phase)
  {
    match s.phase
    case Top => Settle(Do(s, Sample))
    case Computed(_, _) => Settle(Do(s, Enter))
    case Waiting(_, _, _) =>
      if s.queue != [] then Settle(Do(s, Receive)) else if s.Senders() then Do(s, Timeout) else Do(s, Disconnect)
    case Blocked => if s.queue != [] then Settle(Do(s, Receive)) else Do(s, Disconnect)
    case _ => s
  }

  /** The monitor is committed to a wait that outlasts the present moment. */
  predicate Asleep(s: State) {
    && s.queue == []
    && match s.phase
       case Computed(earliest, sampled) => Since(earliest, sampled) > 0
       case Waiting(_, _, _) => s.clock < WakeAt(s.phase)
       case _ => false
  }

  lemma {:induction false} SettleFires(s: State)
    requires Inv(s) && s.Running()
    ensures Settle(s).phase.Expired? <==> s.Overdue() && !Asleep(s)
    decreases |s.queue|, Rank(s.phase)
  {
    match s.phase {
      case Top =>
        DoKeepsInv(s, Sample);
        SettleFires(Do(s, Sample));
        assert s.Overdue() == Do(s, Sample).Overdue();
        if s.queue == [] && s.pending != map[] {
          assert s.live == s.pending;
          assert s.Overdue() <==> Earliest(s.pending) <= s.clock;
        }
      case Computed(_, _) =>
        DoKeepsInv(s, Enter);
        SettleFires(Do(s, Enter));
        assert s.Overdue() == Do(s, Enter).Overdue();
      case Waiting(earliest, _, _) =>
        if s.queue != [] {
          DoKeepsInv(s, Receive);
          SettleFires(Do(s, Receive));
          assert s.Overdue() == Do(s, Receive).Overdue();
        } else {
          assert s.live == s.pending;
          assert s.Overdue() <==> earliest <= s.clock;
        }
      case Blocked =>
        if s.queue != [] {
          DoKeepsInv(s, Receive);
          SettleFires(Do(s, Receive));
          assert s.Overdue() == Do(s, Receive).Overdue();
        }
    }
  }

  /** Left to run, the monitor returns exactly when no sender is left. */
  lemma {:induction false} SettleReturns(s: State)
    requires Inv(s) && s.Running()
    ensures Settle(s).phase.Returned? <==> !s.Senders()
    decreases |s.queue|, Rank(s.phase)
  {
    match s.phase {
      case Top =>
        DoKeepsInv(s, Sample);
        SettleReturns(Do(s, Sample));
      case Computed(_, _) =>
        DoKeepsInv(s, Enter);
        SettleReturns(Do(s, Enter));
      case Waiting(_, _, _) =>
        if s.queue != [] {
          DoKeepsInv(s, Receive);
          SettleReturns(Do(s, Receive));
        }
      case Blocked =>
        if s.queue != [] {
          DoKeepsInv(s, Receive);
          SettleReturns(Do(s, Receive));
        }
    }
  }

  /** From every reachable state, once the monitor is scheduled it fires exactly
      when a live guard is overdue, unless it is already inside a wait that was
      entered late. Any event in the channel ends such a wait. */
  lemma OverdueGuardIsNeverHidden(senders: nat, steps: seq<Step>)
    requires Exec(senders, steps).Running()
    ensures var s := Exec(senders, steps); Settle(s).phase.Expired? <==> s.Overdue() && !Asleep(s)
  {
    InvAlways(senders, steps);
    SettleFires(Exec(senders, steps));
  }

  /** Without a scheduling delay between the two clock readings the wait ends
      exactly at the earliest deadline: the monitor is never asleep past it. */
  lemma PromptWaitIsExact(senders: nat, steps: seq<Step>)
    requires var s := Exec(senders, steps);
      s.Running() && (s.phase.Computed? ==> s.phase.sampled == s.clock)
      && (s.phase.Waiting? ==> s.phase.sampled == s.phase.entered)
    ensures var s := Exec(senders, steps); Settle(s).phase.Expired? <==> s.Overdue()
  {
    var s := Exec(senders, steps);
    OverdueGuardIsNeverHidden(senders, steps);
    InvAlways(senders, steps);
    if s.queue == [] { assert s.live == s.pending; }
  }

  ghost predicate Reachable(senders: nat, s: State) { exists steps :: Exec(senders, steps) == s }

  lemma Reach(senders: nat, s: State, step: Step, t: State)
    requires Reachable(senders, s) && t == Do(s, step)
    ensures Reachable(senders, t)
  {
    var steps :| Exec(senders, steps) == s;
    assert (steps + [step])[..|steps|] == steps;
    assert Exec(senders, steps + [step]) == t;
  }

  lemma TakeOnlyMessage(s: State, id: nat, deadline: Time)
    requires s.phase.Blocked? && s.queue == [Started(id, deadline)] && s.pending == map[]
    ensures Do(s, Receive) == s.(phase := Top, queue := [], pending := map[id := deadline])
  {
    assert s.queue[1..] == [];
    assert Record(s.pending, s.queue[0]) == map[id := deadline];
  }

  /** A guard with deadline 10 has been started and the monitor sleeps with an
      empty map. */
  function OneGuardQueued(): State {
    State(0, [Started(1, 10)], map[], Blocked, 2, 0, map[], map[1 := 10], {})
  }

  lemma OneGuardQueuedIsReachable()
    ensures Reachable(1, OneGuardQueued())
  {
    var s0 := Init(1);
    assert Exec(1, []) == s0;
    var s1 := s0.(spare := 0, drafts := map[1 := Reserved], nextId := 2);
    Reach(1, s0, Reserve, s1);
    var s2 := s1.(drafts := map[1 := Stamped(10)]);
    Reach(1, s1, Stamp(1, 10), s2);
    var s3 := s2.(drafts := map[], live := map[1 := 10], queue := [Started(1, 10)]);
    Reach(1, s2, Send(1), s3);
    Reach(1, s3, Sample, OneGuardQueued());
  }

  function OneGuardRecorded(clock: Time, phase: Phase): State {
    State(clock, [], map[1 := 10], phase, 2, 0, map[], map[1 := 10], {})
  }

  lemma OneGuardRecordedIsReachable()
    ensures Reachable(1, OneGuardRecorded(0, Computed(10, 0)))
  {
    OneGuardQueuedIsReachable();
    TakeOnlyMessage(OneGuardQueued(), 1, 10);
    Reach(1, OneGuardQueued(), Receive, OneGuardRecorded(0, Top));
    assert IsEarliest(10, map[1 := 10]) && Earliest(map[1 := 10]) == 10 by { assert map[1 := 10][1] == 10; }
    Reach(1, OneGuardRecorded(0, Top), Sample, OneGuardRecorded(0, Computed(10, 0)));
  }

  /** With such a delay an overdue guard can wait longer than its limit: in this
      run the deadline is 10, the clock reaches 10, and the monitor sleeps on
      until 15. */
  lemma LateEntryPostponesExpiry()
    ensures exists s :: Reachable(1, s) && s.Running() && s.queue == [] && s.Overdue()
              && s.clock == 10 && s.phase.Waiting? && WakeAt(s.phase) == 15
  {
    OneGuardRecordedIsReachable();
    var s7 := OneGuardRecorded(5, Computed(10, 0));
    Reach(1, OneGuardRecorded(0, Computed(10, 0)), Tick(5), s7);
    var s8 := OneGuardRecorded(5, Waiting(10, 0, 5));
    Reach(1, s7, Enter, s8);
    var s9 := OneGuardRecorded(10, Waiting(10, 0, 5));
    Reach(1, s8, Tick(5), s9);
    assert 1 in s9.live;
  }

  // ---- the monitor's loop ----

  /** What one receive call reports. */
  datatype Report = Delivered(event: Event) | TimedOut | HungUp

  datatype Ending = Fired | Stopped | StillWaiting

  function Events(reports: seq<Report>): seq<Event> {
    if reports == [] then [] else
    (if reports[0].Delivered? then [reports[0].event] else []) + Events(reports[1..])
  }

  lemma {:induction false} EventsAppend(reports: seq<Report>, r: Report)
    ensures Events(reports + [r]) == Events(reports) + (if r.Delivered? then [r.event] else [])
  {
    if reports == [] {
      assert reports + [r] == [r];
    } else {
      var more := reports + [r];
      assert more[0] == reports[0] && more[1..] == reports[1..] + [r];
      EventsAppend(reports[1..], r);
      calc {
        Events(more);
        (if more[0].Delivered? then [more[0].event] else []) + Events(more[1..]);
        Events(reports) + (if r.Delivered? then [r.event] else []);
      }
    }
  }

  method MinDeadline(pending: map<nat, Time>) returns (t: Time)
    requires pending != map[]
    ensures IsEarliest(t, pending)
  {
    var first :| first in pending;
    t := pending[first];
    var rest := pending.Keys - {first};
    while rest != {}
      invariant rest <= pending.Keys
      invariant exists id :: id in pending && pending[id] == t
      invariant forall id :: id in pending && id !in rest ==> t <= pending[id]
      decreases |rest|
    {
      var id :| id in rest;
      if pending[id] < t { t := pending[id]; }
      rest := rest - {id};
    }
  }

  /** The timeout of a receive made with this map: none while it is empty, otherwise
      the earliest deadline. */
  ghost predicate ArmedFor(deadline: Option<Time>, pending: map<nat, Time>) {
    if pending == map[] then deadline.None? else deadline.Some? && IsEarliest(deadline.value, pending)
  }

  method NextTimeout(pending: map<nat, Time>) returns (deadline: Option<Time>)
    ensures ArmedFor(deadline, pending)
  {
    if pending == map[] {
      deadline := None;
    } else {
      var t := MinDeadline(pending);
      deadline := Some(t);
    }
  }

  /** The monitor's map after this many reports. */
  function MapAfter(reports: seq<Report>, n: nat): map<nat, Time>
    requires n <= |reports|
  {
    Replay(map[], Events(reports[..n]))
  }

  lemma MapAfterNone(reports: seq<Report>)
    ensures MapAfter(reports, 0) == map[]
  {
    assert reports[..0] == [];
  }

  lemma MapAfterOneMore(reports: seq<Report>, n: nat)
    requires n < |reports|
    ensures MapAfter(reports, n + 1)
         == if reports[n].Delivered? then Record(MapAfter(reports, n), reports[n].event) else MapAfter(reports, n)
  {
    var r := reports[n];
    assert reports[..n + 1] == reports[..n] + [r];
    EventsAppend(reports[..n], r);
    if r.Delivered? {
      ReplayAppend(map[], Events(reports[..n]), r.event);
    } else {
      assert Events(reports[..n]) + [] == Events(reports[..n]);
    }
  }

  /** The loop of `monitor`, run on what its successive receive calls report. A
      call made while the map is empty has no timeout and cannot time out.
      `armed` lists, for each call in turn, the deadline it was given, if any. */
  method Monitor(reports: seq<Report>)
    returns (ending: Ending, pending: map<nat, Time>, armed: seq<Option<Time>>, used: nat)
    requires forall i :: 0 <= i < |reports| && reports[i].TimedOut? ==> MapAfter(reports, i) != map[]
    ensures used <= |reports|
    ensures pending == MapAfter(reports, used)
    ensures forall i :: 0 <= i < used - 1 ==> reports[i].Delivered?
    ensures ending.Fired? <==> used > 0 && reports[used - 1].TimedOut?
    ensures ending.Stopped? <==> used > 0 && reports[used - 1].HungUp?
    ensures ending.StillWaiting? ==> used == |reports|
    ensures |armed| == used + (if ending.StillWaiting? then 1 else 0)
    ensures forall i :: 0 <= i < |armed| ==> ArmedFor(armed[i], MapAfter(reports, i))
    ensures ending.Fired? ==> ArmedFor(armed[used - 1], pending) && pending != map[]
  {
    MapAfterNone(reports);
    hide MapAfter, ArmedFor;
    pending, armed, used := map[], [], 0;
    while true
      invariant used <= |reports|
      invariant pending == MapAfter(reports, used)
      invariant forall i :: 0 <= i < used ==> reports[i].Delivered?
      invariant |armed| == used
      invariant forall i :: 0 <= i < |armed| ==> ArmedFor(armed[i], MapAfter(reports, i))
      decreases |reports| - used
    {
      var deadline := NextTimeout(pending);
      armed := armed + [deadline];
      if used == |reports| {
        ending := StillWaiting;
        return;
      }
      var report := reports[used];
      MapAfterOneMore(reports, used);
      used := used + 1;
      match report {
        case Delivered(Started(id, deadline)) => pending := pending[id := deadline];
        case Delivered(Finished(id)) => pending := pending - {id};
        case TimedOut =>
          ending := Fired;
          return;
        case HungUp =>
          ending := Stopped;
          return;
      }
    }
  }
}
