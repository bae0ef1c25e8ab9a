/** The startup sampler's health probe: a probing thread and a reader that share
    the wanted process id, the latest result and the first success times under one
    lock. Each step is one section under the lock. */
module HealthProbe {
  import opened Basics

  type Pid = nat
  type Time = nat

  datatype Reading = Reading(pid: Pid, workspaces: int, at: Time, first: Time)

  /** What the probing thread is busy with. */
  datatype Probe = Idle | Probing(pid: Pid)

  /** One call of `read`. */
  datatype Answer = Answer(asked: Option<Pid>, reading: Option<Reading>, time: Time)

  datatype State = State(
    clock: Time,
    wanted: Option<Pid>,
    latest: Option<Reading>,
    firstSuccess: map<Pid, Time>,
    probe: Probe,
    answers: seq<Answer>)

  datatype Step =
    | Tick(elapsed: nat)
    | Begin                      // the thread picks up the wanted process
    | Succeed(workspaces: int)   // the process answered
    | Fail                       // no port of it did
    | Read(pid: Option<Pid>)

  function Publish(s: State, pid: Pid, workspaces: int): State {
    if s.wanted != Some(pid) then s else
    var first := if pid in s.firstSuccess then s.firstSuccess[pid] else s.clock;
    s.(firstSuccess := s.firstSuccess[pid := first], latest := Some(Reading(pid, workspaces, s.clock, first)))
  }

  function Clear(s: State, pid: Pid): State { if s.wanted == Some(pid) then s.(latest := None) else s }

  function ReadOf(s: State, pid: Option<Pid>): Option<Reading> {
    if s.latest.Some? && pid == Some(s.latest.value.pid) then s.latest else None
  }

  function Do(s: State, step: Step): State {
    match step
    case Tick(elapsed) => s.(clock := s.clock + elapsed)
    case Begin => if s.probe.Idle? && s.wanted.Some? then s.(probe := Probing(s.wanted.value)) else s
    case Succeed(workspaces) =>
      if s.probe.Probing? then Publish(s, s.probe.pid, workspaces).(probe := Idle) else s
    case Fail => if s.probe.Probing? then Clear(s, s.probe.pid).(probe := Idle) else s
    case Read(pid) =>
      s.(wanted := pid, answers := s.answers + [Answer(pid, ReadOf(s, pid), s.clock)])
  }

  function Init(): State { State(0, None, None, map[], Idle, []) }

  function Exec(steps: seq<Step>): State
    decreases |steps|
  {
    if steps == [] then Init() else Do(Exec(steps[..|steps| - 1]), steps[|steps| - 1])
  }

  // ---- the invariant ----

  ghost predicate ReadingOk(s: State, r: Reading) {
    r.pid in s.firstSuccess && s.firstSuccess[r.pid] == r.first && r.first <= r.at <= s.clock
  }

  /** The i-th answer is about the process asked for and true to the record. */
  ghost predicate AnswerOk(s: State, a: Answer) {
    a.time <= s.clock && (a.reading.Some? ==>
      a.asked == Some(a.reading.value.pid) && ReadingOk(s, a.reading.value) && a.reading.value.at <= a.time)
  }

  ghost predicate SamePid(a: Answer, b: Answer) {
    a.reading.Some? && b.reading.Some? && a.reading.value.pid == b.reading.value.pid
  }

  ghost predicate Inv(s: State) {
    && (forall p :: p in s.firstSuccess ==> s.firstSuccess[p] <= s.clock)
    && (s.latest.Some? ==> ReadingOk(s, s.latest.value))
    && (forall a :: a in s.answers ==> AnswerOk(s, a))
    && (forall a :: a in s.answers && a.reading.Some? && s.latest.Some? && a.reading.value.pid == s.latest.value.pid ==>
          a.reading.value.at <= s.latest.value.at)
    && (forall i, j :: 0 <= i < j < |s.answers| && SamePid(s.answers[i], s.answers[j]) ==>
          s.answers[i].reading.value.at <= s.answers[j].reading.value.at)
  }

  lemma DoKeepsInv(s: State, step: Step)
    requires Inv(s)
    ensures Inv(Do(s, step))
  {
    var t := Do(s, step);
    if step.Read? {
      forall i, j | 0 <= i < j < |t.answers| && SamePid(t.answers[i], t.answers[j])
        ensures t.answers[i].reading.value.at <= t.answers[j].reading.value.at
      {
        if j == |s.answers| { assert t.answers[i] in s.answers; }
      }
    }
  }

  lemma {:induction false} InvAlways(steps: seq<Step>)
    ensures Inv(Exec(steps))
    decreases |steps|
  {
    if steps != [] {
      InvAlways(steps[..|steps| - 1]);
      DoKeepsInv(Exec(steps[..|steps| - 1]), steps[|steps| - 1]);
    }
  }

  /** In every interleaving a reading concerns the process it was asked for, and
      its first success is not later than the reading, nor the reading later than
      the call. */
  lemma ReadingConcernsAskedProcess(steps: seq<Step>, a: Answer)
    requires a in Exec(steps).answers && a.reading.Some?
    ensures a.asked == Some(a.reading.value.pid)
    ensures a.reading.value.first <= a.reading.value.at <= a.time
  {
    InvAlways(steps);
  }

  /** All readings of one process name the same first success, and later readings
      are not older. */
  lemma FirstSuccessIsStable(steps: seq<Step>, i: nat, j: nat)
    requires i < j < |Exec(steps).answers| && SamePid(Exec(steps).answers[i], Exec(steps).answers[j])
    ensures Exec(steps).answers[i].reading.value.first == Exec(steps).answers[j].reading.value.first
    ensures Exec(steps).answers[i].reading.value.at <= Exec(steps).answers[j].reading.value.at
  {
    InvAlways(steps);
    assert Exec(steps).answers[i] in Exec(steps).answers && Exec(steps).answers[j] in Exec(steps).answers;
  }

  lemma FirstSuccessIsKept(s: State, step: Step, pid: Pid)
    requires pid in s.firstSuccess
    ensures pid in Do(s, step).firstSuccess && Do(s, step).firstSuccess[pid] == s.firstSuccess[pid]
  {}

  /** Once set, the first success of a process never changes, whatever follows. */
  lemma {:induction false} FirstSuccessNeverChanges(steps: seq<Step>, more: seq<Step>, pid: Pid)
    requires pid in Exec(steps).firstSuccess
    ensures pid in Exec(steps + more).firstSuccess
    ensures Exec(steps + more).firstSuccess[pid] == Exec(steps).firstSuccess[pid]
    decreases |more|
  {
    var n := |more| - 1;
    if more == [] {
      assert steps + more == steps;
    } else {
      FirstSuccessNeverChanges(steps, more[..n], pid);
      assert (steps + more)[..|steps + more| - 1] == steps + more[..n];
      FirstSuccessIsKept(Exec(steps + more[..n]), more[n], pid);
    }
  }

  /** The end of a probe shows exactly if its process is still the wanted one: a
      probe begun for another process neither publishes nor clears. */
  lemma ProbeShowsOnlyIfWanted(s: State, workspaces: int)
    requires s.probe.Probing? && Inv(s)
    ensures var p := s.probe.pid; var done, failed := Do(s, Succeed(workspaces)), Do(s, Fail);
      && (s.wanted == Some(p) ==>
            && ReadOf(done, Some(p)).Some? && ReadOf(done, Some(p)).value.at == s.clock
            && ReadOf(done, Some(p)).value.workspaces == workspaces && ReadOf(failed, Some(p)).None?)
      && (s.wanted != Some(p) ==>
            && done.latest == s.latest && done.firstSuccess == s.firstSuccess
            && failed.latest == s.latest && failed.firstSuccess == s.firstSuccess)
  {}

  // ---- where a result comes from ----

  /** At step k a probe of a process ends while that process is the wanted one. */
  ghost predicate EndsWanted(steps: seq<Step>, k: nat)
    requires k < |steps|
  {
    var s := Exec(steps[..k]);
    (steps[k].Succeed? || steps[k].Fail?) && s.probe.Probing? && s.wanted == Some(s.probe.pid)
  }

  /** `r` is what the probe that succeeded at step k found. */
  ghost predicate FoundAt(steps: seq<Step>, k: nat, r: Reading)
    requires k < |steps|
  {
    var s := Exec(steps[..k]);
    steps[k] == Succeed(r.workspaces) && s.probe == Probing(r.pid) && s.wanted == Some(r.pid) && s.clock == r.at
  }

  /** No probe of the wanted process ended after step k. */
  ghost predicate LastWanted(steps: seq<Step>, k: nat)
    requires k < |steps|
  {
    EndsWanted(steps, k) && forall m :: k < m < |steps| ==> !EndsWanted(steps, m)
  }

  ghost predicate FoundLast(steps: seq<Step>, r: Reading) {
    exists k :: 0 <= k < |steps| && LastWanted(steps, k) && FoundAt(steps, k, r)
  }

  ghost predicate NothingFound(steps: seq<Step>) {
    || (forall k :: 0 <= k < |steps| ==> !EndsWanted(steps, k))
    || (exists k :: 0 <= k < |steps| && LastWanted(steps, k) && steps[k].Fail?)
  }

  lemma EarlierStep(steps: seq<Step>, step: Step, k: nat)
    requires k < |steps|
    ensures EndsWanted(steps + [step], k) <==> EndsWanted(steps, k)
    ensures (steps + [step])[k] == steps[k] && (steps + [step])[..k] == steps[..k]
  {
    assert (steps + [step])[..k] == steps[..k];
  }

  /** A step that is no such end changes nothing about the last one. */
  lemma LastWantedStays(steps: seq<Step>, step: Step, k: nat)
    requires !EndsWanted(steps + [step], |steps|)
    requires k < |steps| && LastWanted(steps, k)
    ensures LastWanted(steps + [step], k)
  {
    EarlierStep(steps, step, k);
    forall m | k < m < |steps| + 1 ensures !EndsWanted(steps + [step], m) {
      if m < |steps| { EarlierStep(steps, step, m); }
    }
  }

  lemma FoundLastStays(steps: seq<Step>, step: Step, r: Reading)
    requires !EndsWanted(steps + [step], |steps|) && FoundLast(steps, r)
    ensures FoundLast(steps + [step], r)
  {
    var k :| 0 <= k < |steps| && LastWanted(steps, k) && FoundAt(steps, k, r);
    EarlierStep(steps, step, k);
    LastWantedStays(steps, step, k);
  }

  lemma NothingFoundStays(steps: seq<Step>, step: Step)
    requires !EndsWanted(steps + [step], |steps|) && NothingFound(steps)
    ensures NothingFound(steps + [step])
  {
    if k :| 0 <= k < |steps| && LastWanted(steps, k) && steps[k].Fail? {
      EarlierStep(steps, step, k);
      LastWantedStays(steps, step, k);
    } else {
      forall k | 0 <= k < |steps| + 1 ensures !EndsWanted(steps + [step], k) {
        if k < |steps| { EarlierStep(steps, step, k); }
      }
    }
  }

  /** In every interleaving the latest result is what the last probe found that
      ended while its process was wanted: probes begun for a process no longer
      wanted leave no trace. There is none exactly if that probe failed or there
      was no such probe. */
  lemma {:induction false} LatestIsLastWanted(steps: seq<Step>)
    ensures match Exec(steps).latest case Some(r) => FoundLast(steps, r) case None => NothingFound(steps)
    decreases |steps|
  {
    if steps != [] {
      var n := |steps| - 1;
      var init, step := steps[..n], steps[n];
      assert steps == init + [step];
      LatestIsLastWanted(init);
      var s, t := Exec(init), Exec(steps);
      if EndsWanted(steps, n) {
        assert LastWanted(steps, n);
        assert step.Succeed? ==> FoundAt(steps, n, t.latest.value);
      } else {
        assert t.latest == s.latest;
        if s.latest.Some? { FoundLastStays(init, step, s.latest.value); } else { NothingFoundStays(init, step); }
      }
    }
  }

  /** At step k a probe of this process succeeds while the process is wanted. */
  ghost predicate SucceedsAt(steps: seq<Step>, k: nat, pid: Pid)
    requires k < |steps|
  {
    EndsWanted(steps, k) && steps[k].Succeed? && Exec(steps[..k]).probe == Probing(pid)
  }

  ghost predicate FirstAt(steps: seq<Step>, k: nat, pid: Pid)
    requires k < |steps|
  {
    SucceedsAt(steps, k, pid) && forall m :: 0 <= m < k ==> !SucceedsAt(steps, m, pid)
  }

  ghost predicate FirstFoundAt(steps: seq<Step>, pid: Pid, at: Time) {
    exists k :: 0 <= k < |steps| && FirstAt(steps, k, pid) && Exec(steps[..k]).clock == at
  }

  ghost predicate NeverFound(steps: seq<Step>, pid: Pid) { forall k :: 0 <= k < |steps| ==> !SucceedsAt(steps, k, pid) }

  lemma EarlierSuccess(steps: seq<Step>, step: Step, k: nat, pid: Pid)
    requires k < |steps|
    ensures SucceedsAt(steps + [step], k, pid) <==> SucceedsAt(steps, k, pid)
  {
    EarlierStep(steps, step, k);
  }

  lemma FirstFoundStays(steps: seq<Step>, step: Step, pid: Pid, at: Time)
    requires FirstFoundAt(steps, pid, at)
    ensures FirstFoundAt(steps + [step], pid, at)
  {
    var k :| 0 <= k < |steps| && FirstAt(steps, k, pid) && Exec(steps[..k]).clock == at;
    EarlierStep(steps, step, k);
    forall m | 0 <= m <= k ensures SucceedsAt(steps + [step], m, pid) <==> SucceedsAt(steps, m, pid) {
      EarlierSuccess(steps, step, m, pid);
    }
    hide SucceedsAt;
    assert FirstAt(steps + [step], k, pid);
  }

  lemma NeverFoundMoves(steps: seq<Step>, step: Step, pid: Pid)
    requires NeverFound(steps, pid)
    ensures var all := steps + [step];
      if SucceedsAt(all, |steps|, pid) then FirstFoundAt(all, pid, Exec(steps).clock) else NeverFound(all, pid)
  {
    var all, n := steps + [step], |steps|;
    assert all[..n] == steps;
    forall m | 0 <= m < n ensures !SucceedsAt(all, m, pid) { EarlierSuccess(steps, step, m, pid); }
    hide SucceedsAt, Exec;
    assert SucceedsAt(all, n, pid) ==> FirstAt(all, n, pid);
  }

  /** The first success recorded for a process is the time of the first probe of it
      that succeeded while it was wanted; none is recorded exactly if there was no such
      probe. */
  lemma {:induction false} FirstSuccessIsFirst(steps: seq<Step>, pid: Pid)
    ensures var first := Exec(steps).firstSuccess;
      if pid in first then FirstFoundAt(steps, pid, first[pid]) else NeverFound(steps, pid)
    decreases |steps|
  {
    if steps != [] {
      var n := |steps| - 1;
      var init, step := steps[..n], steps[n];
      assert steps == init + [step];
      FirstSuccessIsFirst(init, pid);
      var s, t := Exec(init), Exec(steps);
      assert steps[..n] == init;
      if pid in s.firstSuccess {
        FirstSuccessIsKept(s, step, pid);
        FirstFoundStays(init, step, pid, s.firstSuccess[pid]);
      } else {
        NeverFoundMoves(init, step, pid);
        assert SucceedsAt(steps, n, pid) ==> pid in t.firstSuccess && t.firstSuccess[pid] == s.clock;
        assert !SucceedsAt(steps, n, pid) ==> pid !in t.firstSuccess;
      }
      hide FirstFoundAt, NeverFound;
    }
  }

  /** A process that stays wanted while it is probed and answers is reported, with the
      time of the answer. */
  lemma WantedProbeIsReported(s: State, pid: Pid, elapsed: nat, workspaces: int)
    requires s.probe.Idle?
    ensures var t := Do(Do(Do(Do(s, Read(Some(pid))), Begin), Tick(elapsed)), Succeed(workspaces));
      var now := s.clock + elapsed;
      && t.probe.Idle?
      && ReadOf(t, Some(pid))
           == Some(Reading(pid, workspaces, now, if pid in s.firstSuccess then s.firstSuccess[pid] else now))
      && ReadOf(Do(Do(Do(t, Begin), Tick(elapsed)), Fail), Some(pid)) == None
  {}

  /** `a` was given at step k. */
  ghost predicate AnsweredAt(steps: seq<Step>, k: nat, a: Answer)
    requires k < |steps|
  {
    steps[k] == Read(a.asked) && a == Answer(a.asked, ReadOf(Exec(steps[..k]), a.asked), Exec(steps[..k]).clock)
  }

  lemma {:induction false} AnswerWasGiven(steps: seq<Step>, a: Answer)
    requires a in Exec(steps).answers
    ensures exists k :: 0 <= k < |steps| && AnsweredAt(steps, k, a)
    decreases |steps|
  {
    var n := |steps| - 1;
    var init, step := steps[..n], steps[n];
    if a in Exec(init).answers {
      AnswerWasGiven(init, a);
      var k :| 0 <= k < |init| && AnsweredAt(init, k, a);
      assert steps[..k] == init[..k];
      assert AnsweredAt(steps, k, a);
    } else {
      assert AnsweredAt(steps, n, a);
    }
  }

  /** Every reading that `read` returns was found by a probe of the process asked
      for, begun and ended before the call, with no wanted probe ending in between. */
  lemma ReadingHasOrigin(steps: seq<Step>, a: Answer)
    requires a in Exec(steps).answers && a.reading.Some?
    ensures a.asked == Some(a.reading.value.pid)
    ensures exists k :: 0 <= k < |steps| && AnsweredAt(steps, k, a) && FoundLast(steps[..k], a.reading.value)
  {
    AnswerWasGiven(steps, a);
    var k :| 0 <= k < |steps| && AnsweredAt(steps, k, a);
    LatestIsLastWanted(steps[..k]);
  }

  // ---- the shared object ----

  class SharedProbe {
    var pid: Option<Pid>
    var latest: Option<Reading>
    var firstSuccess: map<Pid, Time>

    /** The object holds the shared part of the state. */
    ghost predicate Holds(s: State)
      reads this
    {
      pid == s.wanted && latest == s.latest && firstSuccess == s.firstSuccess
    }

    constructor ()
      ensures Holds(Init())
    {
      pid, latest, firstSuccess := None, None, map[];
    }

    /** The section that publishes a success. */
    method Succeeded(probed: Pid, workspaces: int, now: Time, ghost s: State)
      requires Holds(s) && s.probe == Probing(probed) && s.clock == now
      modifies this
      ensures Holds(Do(s, Succeed(workspaces)))
    {
      if pid == Some(probed) {
        var first := now;
        if probed in firstSuccess { first := firstSuccess[probed]; }
        firstSuccess := firstSuccess[probed := first];
        latest := Some(Reading(probed, workspaces, now, first));
      }
    }

    /** The section that clears after a failure. */
    method Failed(probed: Pid, ghost s: State)
      requires Holds(s) && s.probe == Probing(probed)
      modifies this
      ensures Holds(Do(s, Fail))
    {
      if pid == Some(probed) { latest := None; }
    }

    method ReadFor(asked: Option<Pid>, ghost s: State) returns (reading: Option<Reading>)
      requires Holds(s)
      modifies this
      ensures Holds(Do(s, Read(asked))) && reading == ReadOf(s, asked)
    {
      pid := asked;
      reading := if latest.Some? && asked == Some(latest.value.pid) then latest else None;
    }
  }
}
