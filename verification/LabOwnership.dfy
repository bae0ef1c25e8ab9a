/** The reliability lab's ownership protocol: controller commands and expiry
    processes around one lock and one state file that is replaced atomically.

    A run is any list of steps of any processes; a step that is not enabled leaves
    the state unchanged. Any process may crash between two steps, which releases
    the lock. */
module LabOwnership {
  import opened Basics

  type Owner = nat
  type Pid = nat

  /** The recorded lab: its owner name, and the process id kept for each name. */
  datatype Lab = Lab(owner: Owner, processes: map<string, Pid>)

  datatype Command = Up | Down | Edit   // Edit: refresh, seed, simulator and the like

  datatype Role = Controller | Expiry(owner: Owner)

  /** Where a process is. `lab` is its own copy of the state. */
  datatype Pc =
    | Want(command: Command)
    | UpCheck | UpCreate | UpRunning(lab: Lab)
    | EditLoad | Editing(lab: Lab)
    | DownLoad | Stopping(lab: Lab) | Renaming(lab: Lab)
    | Poll | PollLoad | WantLock | Recheck | RecheckLoad | PopExpiry
  {
    /** Past the lock. */
    predicate Critical() { !Want? && !Poll? && !PollLoad? && !WantLock? }
  }

  datatype Proc = Proc(role: Role, pc: Pc)

  datatype Teardown = Teardown(actor: Role, owner: Owner)

  datatype State = State(
    file: Option<Lab>,
    lock: Option<Pid>,
    procs: map<Pid, Proc>,
    nextPid: Pid,
    created: seq<Owner>,
    closed: seq<Owner>,
    teardowns: seq<Teardown>)

  datatype Step =
    | Spawn(command: Command)
    | Crash(pid: Pid)
    | TryLock(pid: Pid)            // non-blocking: the command fails if the lock is held
    | Check(pid: Pid)
    | Create(pid: Pid, owner: Owner)
    | StartProcess(pid: Pid, name: string)
    | StopProcess(pid: Pid, name: string)
    | FailUp(pid: Pid)
    | Load(pid: Pid)
    | Compose(pid: Pid)
    | Rename(pid: Pid)
    | Leave(pid: Pid)
    | PollExists(pid: Pid)
    | PollOwner(pid: Pid)
    | Deadline(pid: Pid)
    | Acquire(pid: Pid)            // blocking
    | RecheckExists(pid: Pid)
    | RecheckOwner(pid: Pid)
    | PopAndSave(pid: Pid)

  function Actor(step: Step): Option<Pid> {
    match step case Spawn(_) => None case _ => Some(step.pid)
  }

  function Goto(s: State, pid: Pid, pc: Pc): State
    requires pid in s.procs
  {
    s.(procs := s.procs[pid := s.procs[pid].(pc := pc)])
  }

  /** The process ends and its lock, if any, is released. */
  function Exit(s: State, pid: Pid): State {
    s.(procs := s.procs - {pid}, lock := if s.lock == Some(pid) then None else s.lock)
  }

  /** Saving replaces the whole file in one step. */
  function Save(s: State, pid: Pid, pc: Pc): State
    requires pid in s.procs && (pc.UpRunning? || pc.Editing? || pc.Stopping?)
  {
    Goto(s, pid, pc).(file := Some(pc.lab))
  }

  predicate Enabled(s: State, step: Step) {
    match Actor(step)
    case None => true
    case Some(pid) =>
      pid in s.procs &&
      var pc := s.procs[pid].pc;
      match step
      case Spawn(_) => true
      case Crash(_) => true
      case TryLock(_) => pc.Want?
      case Check(_) => pc.UpCheck?
      case Create(_, owner) => pc.UpCreate? && owner !in s.created   // owner names are fresh
      case StartProcess(_, _) => pc.UpRunning? || pc.Editing?
      case StopProcess(_, name) => (pc.Editing? || pc.Stopping?) && name in pc.lab.processes
      case FailUp(_) => pc.UpRunning?
      case Load(_) => pc.EditLoad? || pc.DownLoad?
      case Compose(_) => pc.Stopping? && pc.lab.processes == map[]
      case Rename(_) => pc.Renaming?
      case Leave(_) => pc.UpRunning? || pc.Editing? || pc.UpCreate?
      case PollExists(_) => pc.Poll?
      case PollOwner(_) => pc.PollLoad?
      case Deadline(_) => pc.Poll?
      case Acquire(_) => pc.WantLock? && s.lock == None
      case RecheckExists(_) => pc.Recheck?
      case RecheckOwner(_) => pc.RecheckLoad?
      case PopAndSave(_) => pc.PopExpiry? && s.file.Some?
  }

  function WithProcess(lab: Lab, name: string, pid: Pid): Lab { lab.(processes := lab.processes[name := pid]) }

  function WithoutProcess(lab: Lab, name: string): Lab { lab.(processes := lab.processes - {name}) }

  function Relabel(pc: Pc, lab: Lab): Pc
    requires pc.UpRunning? || pc.Editing? || pc.Stopping?
  {
    if pc.UpRunning? then UpRunning(lab) else if pc.Editing? then Editing(lab) else Stopping(lab)
  }

  /** `stop_process` signals a recorded process only if it is still the one that
      was recorded: here, an expiry process of this lab. */
  predicate Signals(s: State, lab: Lab, name: string)
    requires name in lab.processes
  {
    name == "expiry" && lab.processes[name] in s.procs && s.procs[lab.processes[name]].role == Expiry(lab.owner)
  }

  /** The steps that only expiry processes take. */
  predicate OfExpiry(step: Step) {
    step.PollExists? || step.PollOwner? || step.Deadline? || step.Acquire? || step.RecheckExists? || step.RecheckOwner?
    || step.PopAndSave?
  }

  function CommandStep(s: State, step: Step): State
    requires Enabled(s, step) && !OfExpiry(step)
  {
    match step
    case Spawn(command) =>
      s.(procs := s.procs[s.nextPid := Proc(Controller, Want(command))], nextPid := s.nextPid + 1)
    case Crash(pid) => Exit(s, pid)
    case TryLock(pid) =>
      if s.lock.Some? then Exit(s, pid)
      else
        var pc := match s.procs[pid].pc.command case Up => UpCheck case Down => DownLoad case Edit => EditLoad;
        Goto(s, pid, pc).(lock := Some(pid))
    case Check(pid) => if s.file.Some? then Exit(s, pid) else Goto(s, pid, UpCreate)
    case Create(pid, owner) =>
      Save(s, pid, UpRunning(Lab(owner, map[]))).(created := s.created + [owner])
    case StartProcess(pid, name) =>
      var pc := s.procs[pid].pc;
      var lab := WithProcess(pc.lab, name, s.nextPid);
      var t := Save(s, pid, Relabel(pc, lab)).(nextPid := s.nextPid + 1);
      if name == "expiry" then t.(procs := t.procs[s.nextPid := Proc(Expiry(lab.owner), Poll)]) else t
    case StopProcess(pid, name) =>
      var pc := s.procs[pid].pc;
      var t := Save(s, pid, Relabel(pc, WithoutProcess(pc.lab, name)));
      if Signals(s, pc.lab, name) then Exit(t, pc.lab.processes[name]) else t
    case FailUp(pid) => Goto(s, pid, DownLoad)
    case Load(pid) =>
      if s.file.None? then Exit(s, pid)
      else Goto(s, pid, if s.procs[pid].pc.EditLoad? then Editing(s.file.value) else Stopping(s.file.value))
    case Compose(pid) =>
      var lab := s.procs[pid].pc.lab;
      Goto(s, pid, Renaming(lab)).(teardowns := s.teardowns + [Teardown(s.procs[pid].role, lab.owner)])
    case Rename(pid) => Exit(s, pid).(file := None, closed := s.closed + [s.procs[pid].pc.lab.owner])
    case Leave(pid) => Exit(s, pid)
  }

  function ExpiryStep(s: State, step: Step): State
    requires Enabled(s, step) && OfExpiry(step)
  {
    match step
    case PollExists(pid) => if s.file.None? then Exit(s, pid) else Goto(s, pid, PollLoad)
    case PollOwner(pid) =>
      if s.file.Some? && Expiry(s.file.value.owner) == s.procs[pid].role then Goto(s, pid, Poll) else Exit(s, pid)
    case Deadline(pid) => Goto(s, pid, WantLock)
    case Acquire(pid) => Goto(s, pid, Recheck).(lock := Some(pid))
    case RecheckExists(pid) => if s.file.None? then Exit(s, pid) else Goto(s, pid, RecheckLoad)
    case RecheckOwner(pid) =>
      if s.file.Some? && Expiry(s.file.value.owner) == s.procs[pid].role then Goto(s, pid, PopExpiry) else Exit(s, pid)
    case PopAndSave(pid) => Goto(s, pid, DownLoad).(file := Some(WithoutProcess(s.file.value, "expiry")))
  }

  function Do(s: State, step: Step): State {
    if !Enabled(s, step) then s else if OfExpiry(step) then ExpiryStep(s, step) else CommandStep(s, step)
  }

  function Init(): State { State(None, None, map[], 1, [], [], []) }

  function Exec(steps: seq<Step>): State
    decreases |steps|
  {
    if steps == [] then Init() else Do(Exec(steps[..|steps| - 1]), steps[|steps| - 1])
  }

  // ---- the invariant ----

  /** What the process past the lock may rely on. */
  ghost predicate HolderOk(s: State, p: Proc) {
    && (match p.pc
        case UpCreate => s.file.None?
        case UpRunning(lab) => s.file == Some(lab)
        case Editing(lab) => s.file == Some(lab)
        case Stopping(lab) => s.file == Some(lab)
        case Renaming(lab) => s.file == Some(lab)
        case _ => true)
    && (p.role.Expiry? ==>
          match p.pc
          case PopExpiry => s.file.Some? && s.file.value.owner == p.role.owner
          case DownLoad => s.file.Some? && s.file.value.owner == p.role.owner && "expiry" !in s.file.value.processes
          case Stopping(lab) => lab.owner == p.role.owner && "expiry" !in lab.processes
          case Renaming(lab) => lab.owner == p.role.owner && "expiry" !in lab.processes
          case _ => true)
  }

  /** Each role keeps to its own part of the program. */
  predicate ShapeOk(p: Proc) {
    if p.role.Expiry? then
      !p.pc.Want? && !p.pc.UpCheck? && !p.pc.UpCreate? && !p.pc.UpRunning? && !p.pc.EditLoad? && !p.pc.Editing?
    else
      !p.pc.WantLock? && !p.pc.Poll? && !p.pc.PollLoad? && !p.pc.Recheck? && !p.pc.RecheckLoad? && !p.pc.PopExpiry?
  }

  ghost predicate ShapesOk(s: State) { forall pid :: pid in s.procs ==> pid < s.nextPid && ShapeOk(s.procs[pid]) }

  ghost predicate Mutex(s: State) {
    && (s.lock.Some? ==> s.lock.value in s.procs)
    && (forall pid :: pid in s.procs && s.procs[pid].pc.Critical() ==> s.lock == Some(pid))
  }

  ghost predicate HoldersOk(s: State) {
    forall pid :: pid in s.procs && s.procs[pid].pc.Critical() ==> HolderOk(s, s.procs[pid])
  }

  ghost predicate LockOk(s: State) { ShapesOk(s) && Mutex(s) && HoldersOk(s) }

  ghost predicate Distinct(xs: seq<Owner>) { forall i, j :: 0 <= i < j < |xs| ==> xs[i] != xs[j] }

  /** Labs are opened one at a time: those created are those closed, in the same
      order, and then the one recorded as open. */
  ghost predicate LedgerOk(s: State) {
    && Distinct(s.created)
    && s.created == s.closed + (if s.file.Some? then [s.file.value.owner] else [])
  }

  ghost predicate TeardownsOk(s: State) {
    forall t :: t in s.teardowns ==> t.owner in s.created && (t.actor.Expiry? ==> t.actor.owner == t.owner)
  }

  ghost predicate Inv(s: State) { LockOk(s) && LedgerOk(s) && TeardownsOk(s) }

  /** A process past the lock sees a file that nobody else changes. */
  lemma HolderAlone(s: State, pid: Pid)
    requires LockOk(s) && pid in s.procs && s.procs[pid].pc.Critical()
    ensures s.lock == Some(pid) && HolderOk(s, s.procs[pid])
    ensures forall q :: q in s.procs && q != pid ==> !s.procs[q].pc.Critical()
  {}

  /** A step leaves the other processes where they are, or ends them. */
  lemma OthersStay(s: State, step: Step, q: Pid)
    requires q in Do(s, step).procs && Actor(step) != Some(q) && q < s.nextPid
    ensures q in s.procs && Do(s, step).procs[q] == s.procs[q]
  {}

  /** A process starts outside the lock. */
  lemma NewcomersAreOutside(s: State, step: Step, q: Pid)
    requires q in Do(s, step).procs && q !in s.procs
    ensures q == s.nextPid < Do(s, step).nextPid
    ensures !Do(s, step).procs[q].pc.Critical() && ShapeOk(Do(s, step).procs[q])
  {}

  lemma CommandKeepsShape(s: State, step: Step)
    requires ShapesOk(s) && Actor(step).Some? && step.pid in s.procs && Enabled(s, step) && !OfExpiry(step)
    requires step.pid in CommandStep(s, step).procs
    ensures ShapeOk(CommandStep(s, step).procs[step.pid])
  {}

  lemma ExpiryKeepsShape(s: State, step: Step)
    requires ShapesOk(s) && Enabled(s, step) && OfExpiry(step) && step.pid in ExpiryStep(s, step).procs
    ensures ShapeOk(ExpiryStep(s, step).procs[step.pid])
  {}

  lemma ActorKeepsShape(s: State, step: Step)
    requires ShapesOk(s) && Actor(step).Some? && step.pid in Do(s, step).procs && step.pid in s.procs
    ensures ShapeOk(Do(s, step).procs[step.pid])
  {
    if Enabled(s, step) {
      hide CommandStep, ExpiryStep;
      if OfExpiry(step) { ExpiryKeepsShape(s, step); } else { CommandKeepsShape(s, step); }
    }
  }

  ghost predicate LockMove(s: State, t: State, step: Step) {
    && (t.lock.Some? ==> t.lock.value in t.procs)
    && t.nextPid >= s.nextPid
    && (t.lock != s.lock ==> Actor(step).Some? && (s.lock == None || s.lock == Some(step.pid)))
  }

  lemma CommandMovesLock(s: State, step: Step)
    requires ShapesOk(s) && Mutex(s) && Enabled(s, step) && !OfExpiry(step)
    ensures LockMove(s, CommandStep(s, step), step)
  {
    hide ShapesOk, ShapeOk;
  }

  lemma ExpiryMovesLock(s: State, step: Step)
    requires ShapesOk(s) && Mutex(s) && Enabled(s, step) && OfExpiry(step)
    ensures LockMove(s, ExpiryStep(s, step), step)
  {
    hide ShapesOk, ShapeOk;
  }

  lemma LockFollows(s: State, step: Step)
    requires ShapesOk(s) && Mutex(s)
    ensures LockMove(s, Do(s, step), step)
  {
    if Enabled(s, step) {
      hide CommandStep, ExpiryStep, ShapesOk, LockMove;
      if OfExpiry(step) { ExpiryMovesLock(s, step); } else { CommandMovesLock(s, step); }
    } else {
      hide Enabled, ShapesOk;
    }
  }

  lemma ActorPastTheLockHoldsIt(s: State, step: Step)
    requires ShapesOk(s) && Mutex(s) && Actor(step).Some? && step.pid in s.procs
    requires step.pid in Do(s, step).procs && Do(s, step).procs[step.pid].pc.Critical()
    ensures Do(s, step).lock == Some(step.pid)
  {}

  lemma DoKeepsShapesAndMutex(s: State, step: Step)
    requires ShapesOk(s) && Mutex(s)
    ensures ShapesOk(Do(s, step)) && Mutex(Do(s, step))
  {
    var t := Do(s, step);
    LockFollows(s, step);
    forall q | q in t.procs
      ensures q < t.nextPid && ShapeOk(t.procs[q]) && (t.procs[q].pc.Critical() ==> t.lock == Some(q))
    {
      hide Do;
      if q !in s.procs {
        NewcomersAreOutside(s, step, q);
      } else if Actor(step) == Some(q) {
        ActorKeepsShape(s, step);
        if t.procs[q].pc.Critical() { ActorPastTheLockHoldsIt(s, step); }
      } else {
        OthersStay(s, step, q);
      }
    }
  }

  /** Only the process past the lock changes the file. */
  lemma FileIsGuarded(s: State, step: Step)
    requires Do(s, step).file != s.file
    ensures Actor(step).Some? && step.pid in s.procs && s.procs[step.pid].pc.Critical()
  {}

  lemma CommandStaysOk(s: State, step: Step)
    requires LockOk(s) && Actor(step).Some? && step.pid in s.procs && Enabled(s, step) && !OfExpiry(step)
    requires step.pid in CommandStep(s, step).procs && CommandStep(s, step).procs[step.pid].pc.Critical()
    ensures HolderOk(CommandStep(s, step), CommandStep(s, step).procs[step.pid])
  {
    if s.procs[step.pid].pc.Critical() { HolderAlone(s, step.pid); }
  }

  lemma ExpiryStaysOk(s: State, step: Step)
    requires LockOk(s) && Enabled(s, step) && OfExpiry(step)
    requires step.pid in ExpiryStep(s, step).procs && ExpiryStep(s, step).procs[step.pid].pc.Critical()
    ensures HolderOk(ExpiryStep(s, step), ExpiryStep(s, step).procs[step.pid])
  {
    if s.procs[step.pid].pc.Critical() { HolderAlone(s, step.pid); }
  }

  lemma ActorStaysOk(s: State, step: Step)
    requires LockOk(s) && Actor(step).Some? && step.pid in s.procs && step.pid in Do(s, step).procs
    requires Do(s, step).procs[step.pid].pc.Critical()
    ensures HolderOk(Do(s, step), Do(s, step).procs[step.pid])
  {
    hide CommandStep, ExpiryStep, HolderOk;
    if !Enabled(s, step) {
      HolderAlone(s, step.pid);
    } else if OfExpiry(step) {
      ExpiryStaysOk(s, step);
    } else {
      CommandStaysOk(s, step);
    }
  }

  lemma DoKeepsLock(s: State, step: Step)
    requires LockOk(s)
    ensures LockOk(Do(s, step))
  {
    var t := Do(s, step);
    DoKeepsShapesAndMutex(s, step);
    forall q | q in t.procs && t.procs[q].pc.Critical() ensures HolderOk(t, t.procs[q]) {
      hide Do;
      if q !in s.procs {
        NewcomersAreOutside(s, step, q);
      } else if Actor(step) == Some(q) {
        ActorStaysOk(s, step);
      } else {
        OthersStay(s, step, q);
        if t.file != s.file { FileIsGuarded(s, step); }
      }
    }
  }

  function OpenOwner(s: State): Option<Owner> { if s.file.Some? then Some(s.file.value.owner) else None }

  /** A step opens a fresh lab when none is open, closes the one that is open, or
      leaves both books and the owner as they are. */
  ghost predicate LedgerMove(s: State, t: State) {
    || (t.created == s.created && t.closed == s.closed && OpenOwner(t) == OpenOwner(s))
    || (OpenOwner(s) == None && OpenOwner(t).Some? && OpenOwner(t).value !in s.created
        && t.created == s.created + [OpenOwner(t).value] && t.closed == s.closed)
    || (OpenOwner(s).Some? && OpenOwner(t) == None
        && t.created == s.created && t.closed == s.closed + [OpenOwner(s).value])
  }

  lemma CommandMovesLedger(s: State, step: Step)
    requires LockOk(s) && Enabled(s, step) && !OfExpiry(step)
    ensures LedgerMove(s, CommandStep(s, step))
  {
    if Actor(step).Some? && s.procs[step.pid].pc.Critical() { HolderAlone(s, step.pid); }
    hide LockOk, ShapeOk, HolderOk, Signals;
  }

  lemma ExpiryMovesLedger(s: State, step: Step)
    requires LockOk(s) && Enabled(s, step) && OfExpiry(step)
    ensures LedgerMove(s, ExpiryStep(s, step))
  {
    hide LockOk;
  }

  lemma StepMovesLedger(s: State, step: Step)
    requires LockOk(s)
    ensures LedgerMove(s, Do(s, step))
  {
    if Enabled(s, step) {
      hide CommandStep, ExpiryStep, LockOk, LedgerMove;
      if OfExpiry(step) { ExpiryMovesLedger(s, step); } else { CommandMovesLedger(s, step); }
    } else {
      hide Enabled, LockOk;
    }
  }

  lemma DoKeepsLedger(s: State, step: Step)
    requires LockOk(s) && LedgerOk(s)
    ensures LedgerOk(Do(s, step))
  {
    StepMovesLedger(s, step);
    hide Do;
  }

  /** Only `docker compose down` tears down, and it does so for the lab of the
      process that runs it. */
  lemma TeardownsFollow(s: State, step: Step)
    ensures Do(s, step).teardowns == s.teardowns
      + (if step.Compose? && Enabled(s, step) then
           [Teardown(s.procs[step.pid].role, s.procs[step.pid].pc.lab.owner)]
         else [])
  {
    hide Signals;
  }

  lemma DoKeepsTeardowns(s: State, step: Step)
    requires LockOk(s) && LedgerOk(s) && TeardownsOk(s)
    ensures TeardownsOk(Do(s, step))
  {
    TeardownsFollow(s, step);
    StepMovesLedger(s, step);
    if step.Compose? && Enabled(s, step) { HolderAlone(s, step.pid); }
    hide Do, ShapesOk;
  }

  lemma {:induction false} InvAlways(steps: seq<Step>)
    ensures Inv(Exec(steps))
    decreases |steps|
  {
    if steps != [] {
      InvAlways(steps[..|steps| - 1]);
      DoKeepsLock(Exec(steps[..|steps| - 1]), steps[|steps| - 1]);
      DoKeepsLedger(Exec(steps[..|steps| - 1]), steps[|steps| - 1]);
      DoKeepsTeardowns(Exec(steps[..|steps| - 1]), steps[|steps| - 1]);
    }
  }

  // ---- what it guarantees ----

  /** With any number of commands and expiry processes interleaved, and any
      crashes, the expiry process of one lab tears down only that lab. */
  lemma ExpiryNeverCrossesLabs(steps: seq<Step>, t: Teardown)
    requires t in Exec(steps).teardowns && t.actor.Expiry?
    ensures t.owner == t.actor.owner
  {
    InvAlways(steps);
  }

  /** No lab is closed twice. */
  lemma ClosedAtMostOnce(steps: seq<Step>)
    ensures Distinct(Exec(steps).closed)
    ensures forall o :: o in Exec(steps).closed ==> o in Exec(steps).created
  {
    InvAlways(steps);
    var s := Exec(steps);
    forall i, j | 0 <= i < j < |s.closed| ensures s.closed[i] != s.closed[j] {
      assert s.created[i] == s.closed[i] && s.created[j] == s.closed[j];
    }
  }

  /** A lab is created only when none is recorded as open, and then every earlier
      one has been closed. */
  lemma CreatedOnlyWhenNoneIsOpen(steps: seq<Step>, step: Step)
    requires |Do(Exec(steps), step).created| > |Exec(steps).created|
    ensures Exec(steps).file == None && Exec(steps).created == Exec(steps).closed
  {
    hide Do;
    InvAlways(steps);
    StepMovesLedger(Exec(steps), step);
  }

  /** The record disappears only through the rename that closes exactly the lab it
      held, and its owner never changes. */
  lemma RecordKeepsItsOwner(steps: seq<Step>, step: Step)
    requires Exec(steps).file.Some?
    ensures var s, t := Exec(steps), Do(Exec(steps), step);
      if t.file.Some? then t.file.value.owner == s.file.value.owner && t.closed == s.closed
      else t.closed == s.closed + [s.file.value.owner]
  {
    hide Do;
    InvAlways(steps);
    StepMovesLedger(Exec(steps), step);
  }

  /** An expiry process that tears its lab down never signals itself, because it
      takes its own entry out of the record first. */
  lemma ExpiryDoesNotStopItself(steps: seq<Step>, pid: Pid, name: string)
    requires pid in Exec(steps).procs && Exec(steps).procs[pid].role.Expiry?
    ensures pid in Do(Exec(steps), StopProcess(pid, name)).procs
  {
    InvAlways(steps);
  }

  // ---- the commands themselves, undisturbed ----

  /** The process at `pid`, alone past the lock, is at `pc`; the books are as in `s`. */
  ghost predicate Inside(t: State, pid: Pid, pc: Pc, s: State) {
    && pid in t.procs && pid in s.procs && t.procs[pid] == Proc(s.procs[pid].role, pc)
    && t.lock == Some(pid) && t.created == s.created && t.closed == s.closed && t.teardowns == s.teardowns
  }

  /** What ended: the process and its hold on the lock. The books and the file are
      as in `s`. */
  ghost predicate Ended(t: State, pid: Pid, s: State) {
    && pid !in t.procs && t.lock == None && t.file == s.file
    && t.created == s.created && t.closed == s.closed && t.teardowns == s.teardowns
  }

  lemma Loading(s: State, pid: Pid)
    requires Inside(s, pid, DownLoad, s)
    ensures var t := Do(s, Load(pid));
      if s.file.None? then Ended(t, pid, s) else Inside(t, pid, Stopping(s.file.value), s)
  {}

  /** Stopping a recorded process takes it out of the record, saves the record, and
      ends the process if it is an expiry process of this lab. Nobody else ends or
      appears. */
  lemma StoppingOne(s: State, pid: Pid, lab: Lab, name: string)
    requires Inside(s, pid, Stopping(lab), s) && name in lab.processes
    requires pid in Do(s, StopProcess(pid, name)).procs
    ensures var t := Do(s, StopProcess(pid, name));
      && Inside(t, pid, Stopping(WithoutProcess(lab, name)), s) && t.nextPid == s.nextPid
      && t.file == Some(WithoutProcess(lab, name)) && EndsOnly(s, t, pid, lab, name)
  {}

  lemma StoppingForEdit(s: State, pid: Pid, lab: Lab, name: string)
    requires Inside(s, pid, Editing(lab), s) && name in lab.processes
    requires pid in Do(s, StopProcess(pid, name)).procs
    ensures var t := Do(s, StopProcess(pid, name));
      && Inside(t, pid, Editing(WithoutProcess(lab, name)), s) && t.nextPid == s.nextPid
      && t.file == Some(WithoutProcess(lab, name)) && EndsOnly(s, t, pid, lab, name)
  {}

  ghost predicate EndsOnly(s: State, t: State, pid: Pid, lab: Lab, name: string)
    requires name in lab.processes
  {
    forall q :: q != pid ==>
      && (q in t.procs <==> q in s.procs && !(q == lab.processes[name] && Signals(s, lab, name)))
      && (q in t.procs ==> t.procs[q] == s.procs[q])
  }

  function FirstPc(command: Command): Pc {
    match command case Up => UpCheck case Down => DownLoad case Edit => EditLoad
  }

  /** Trying the lock: it is taken if it is free, otherwise the command ends. */
  lemma TryingLock(s: State, pid: Pid)
    requires pid in s.procs && s.procs[pid].pc.Want? && s.lock != Some(pid)
    ensures var t := Do(s, TryLock(pid));
      && t.file == s.file && t.nextPid == s.nextPid
      && t.created == s.created && t.closed == s.closed && t.teardowns == s.teardowns
      && (s.lock.Some? ==> t.lock == s.lock && t.procs == s.procs - {pid})
      && (s.lock.None? ==>
            Inside(t, pid, FirstPc(s.procs[pid].pc.command), s))
  {}

  /** `up` goes on exactly if no lab is recorded. */
  lemma Checking(s: State, pid: Pid)
    requires Inside(s, pid, UpCheck, s)
    ensures var t := Do(s, Check(pid));
      if s.file.Some? then Ended(t, pid, s)
      else Inside(t, pid, UpCreate, s) && t.file == None && t.nextPid == s.nextPid
  {}

  lemma Creating(s: State, pid: Pid, owner: Owner)
    requires Inside(s, pid, UpCreate, s) && owner !in s.created
    ensures var t := Do(s, Create(pid, owner)); var lab := Lab(owner, map[]);
      && Inside(t, pid, UpRunning(lab), s.(created := s.created + [owner]))
      && t.file == Some(lab) && t.nextPid == s.nextPid
  {}

  /** Starting a process records and saves it; the one called expiry polls for this
      lab. */
  lemma StartingOne(s: State, pid: Pid, lab: Lab, name: string)
    requires pid in s.procs && pid < s.nextPid
    requires Inside(s, pid, UpRunning(lab), s) || Inside(s, pid, Editing(lab), s)
    ensures var t := Do(s, StartProcess(pid, name)); var more := WithProcess(lab, name, s.nextPid);
      && Inside(t, pid, Relabel(s.procs[pid].pc, more), s) && t.file == Some(more) && t.nextPid == s.nextPid + 1
      && (name == "expiry" ==> s.nextPid in t.procs && t.procs[s.nextPid] == Proc(Expiry(lab.owner), Poll))
      && forall q :: q in s.procs && q != pid ==> q in t.procs && (q < s.nextPid ==> t.procs[q] == s.procs[q])
  {}

  lemma Leaving(s: State, pid: Pid, lab: Lab)
    requires Inside(s, pid, UpRunning(lab), s) || Inside(s, pid, Editing(lab), s)
    ensures var t := Do(s, Leave(pid)); Ended(t, pid, s) && t.procs == s.procs - {pid}
  {}

  lemma Failing(s: State, pid: Pid, lab: Lab)
    requires Inside(s, pid, UpRunning(lab), s)
    ensures var t := Do(s, FailUp(pid)); Inside(t, pid, DownLoad, s) && t.file == s.file
  {}

  lemma LoadingForEdit(s: State, pid: Pid)
    requires Inside(s, pid, EditLoad, s)
    ensures var t := Do(s, Load(pid));
      if s.file.None? then Ended(t, pid, s)
      else Inside(t, pid, Editing(s.file.value), s) && t.file == s.file && t.nextPid == s.nextPid
           && t.procs.Keys == s.procs.Keys
  {}

  ghost predicate HolderInside(s: State) {
    s.lock.Some? ==> s.lock.value in s.procs && s.procs[s.lock.value].pc.Critical()
  }

  lemma DoKeepsHolderInside(s: State, step: Step)
    requires LockOk(s) && HolderInside(s)
    ensures HolderInside(Do(s, step))
  {
    hide HolderOk, ShapeOk;
  }

  /** Whoever holds the lock is past it. */
  lemma {:induction false} HolderIsInside(steps: seq<Step>)
    ensures HolderInside(Exec(steps))
    decreases |steps|
  {
    if steps != [] {
      var init := steps[..|steps| - 1];
      HolderIsInside(init);
      InvAlways(init);
      DoKeepsHolderInside(Exec(init), steps[|steps| - 1]);
      hide Do, LockOk, HolderInside;
    }
  }

  /** A crash frees the lock: whatever the holder was doing, the next command gets
      past it. */
  lemma CrashUnblocks(steps: seq<Step>, pid: Pid, other: Pid)
    requires var s := Exec(steps); s.lock == Some(pid) && other != pid && other in s.procs && s.procs[other].pc.Want?
    ensures var t := Do(Do(Exec(steps), Crash(pid)), TryLock(other));
      pid !in t.procs && t.lock == Some(other) && other in t.procs && t.procs[other].pc.Critical()
      && t.file == Exec(steps).file
  {
    HolderIsInside(steps);
    hide Exec;
  }

  lemma Closing(s: State, pid: Pid, lab: Lab)
    requires Inside(s, pid, Stopping(lab), s) && lab.processes == map[]
    ensures var t := Do(Do(s, Compose(pid)), Rename(pid));
      && pid !in t.procs && t.lock == None && t.file == None && t.created == s.created
      && t.closed == s.closed + [lab.owner] && t.procs.Keys <= s.procs.Keys
      && t.teardowns == s.teardowns + [Teardown(s.procs[pid].role, lab.owner)]
  {
    var t := Do(s, Compose(pid));
    assert Inside(t, pid, Renaming(lab), s.(teardowns := t.teardowns));
  }

  /** The lab's expiry process has ended, or is still recorded and about to be. */
  ghost predicate ExpiryEnding(s: State, lab: Lab, expiry: Pid) {
    || expiry !in s.procs
    || ("expiry" in lab.processes && lab.processes["expiry"] == expiry && Signals(s, lab, "expiry"))
  }

  lemma ExpiryEndingStays(s: State, pid: Pid, lab: Lab, name: string, expiry: Pid)
    requires Inside(s, pid, Stopping(lab), s) && name in lab.processes
    requires pid in Do(s, StopProcess(pid, name)).procs && ExpiryEnding(s, lab, expiry) && expiry != pid
    ensures ExpiryEnding(Do(s, StopProcess(pid, name)), WithoutProcess(lab, name), expiry)
  {
    StoppingOne(s, pid, lab, name);
    hide Do;
  }

  predicate Owns(s: State, pid: Pid)
    requires pid in s.procs
  {
    s.file.Some? && Expiry(s.file.value.owner) == s.procs[pid].role
  }

  lemma Polling(s: State, pid: Pid)
    requires pid in s.procs && s.procs[pid].pc == Poll && s.lock == None
    ensures var t := Do(s, PollExists(pid));
      && (pid !in t.procs <==> s.file.None?)
      && (pid !in t.procs ==> Ended(t, pid, s))
      && (pid in t.procs ==> if Owns(s, pid) then Do(t, PollOwner(pid)) == s else Ended(Do(t, PollOwner(pid)), pid, s))
  {
    var t := Do(s, PollExists(pid));
    if pid in t.procs && Owns(s, pid) {
      assert Do(t, PollOwner(pid)).procs == s.procs;
    }
  }

  lemma Entering(s: State, pid: Pid)
    requires pid in s.procs && s.procs[pid].pc == Poll && s.lock == None
    ensures var t := Do(Do(s, Deadline(pid)), Acquire(pid));
      Inside(t, pid, Recheck, s) && t.file == s.file
  {}

  lemma Rechecking(s: State, pid: Pid)
    requires Inside(s, pid, Recheck, s)
    ensures var t := Do(s, RecheckExists(pid));
      && (pid !in t.procs <==> s.file.None?)
      && (pid !in t.procs ==> Ended(t, pid, s))
      && (pid in t.procs ==>
            var u := Do(t, RecheckOwner(pid));
            if Owns(s, pid) then Inside(u, pid, PopExpiry, s) && u.file == s.file else Ended(u, pid, s))
  {}

  lemma Popping(s: State, pid: Pid)
    requires Inside(s, pid, PopExpiry, s) && s.file.Some?
    ensures var t := Do(s, PopAndSave(pid));
      Inside(t, pid, DownLoad, s) && t.file == Some(WithoutProcess(s.file.value, "expiry"))
  {}

  /** Stopping a process never ends the one that stops it. */
  lemma StopperStays(steps: seq<Step>, pid: Pid, name: string)
    requires pid in Exec(steps).procs
    ensures pid in Do(Exec(steps), StopProcess(pid, name)).procs
  {
    if Exec(steps).procs[pid].role.Expiry? { ExpiryDoesNotStopItself(steps, pid, name); }
  }

  /** The recorded expiry process that `down` ends is not the one that runs it. */
  lemma StopperIsAnother(steps: seq<Step>, pid: Pid)
    requires var s := Exec(steps);
      && pid in s.procs && s.procs[pid].pc == DownLoad && s.file.Some?
      && "expiry" in s.file.value.processes && Signals(s, s.file.value, "expiry")
    ensures Exec(steps).file.value.processes["expiry"] != pid
  {
    InvAlways(steps);
    HolderAlone(Exec(steps), pid);
    hide Exec;
  }

  lemma HoldsLock(steps: seq<Step>, pid: Pid)
    requires pid in Exec(steps).procs && Exec(steps).procs[pid].pc.Critical()
    ensures Exec(steps).lock == Some(pid)
  {
    InvAlways(steps);
  }

  /** The lab of this owner is recorded with its processes, and its expiry process
      polls. */
  ghost predicate IsUp(s: State, owner: Owner) {
    && s.file.Some? && s.file.value.owner == owner
    && s.file.value.processes.Keys == {"relay", "daemon", "expiry"}
    && s.file.value.processes["expiry"] in s.procs
    && s.procs[s.file.value.processes["expiry"]] == Proc(Expiry(owner), Poll)
  }

  /** The lab with a new relay and a new daemon, and an expiry process. */
  function Refreshed(lab: Lab, nextPid: Pid): Lab {
    var replaced := lab.processes["relay" := nextPid]["daemon" := nextPid + 1];
    lab.(processes := if "expiry" in replaced then replaced else replaced["expiry" := nextPid + 2])
  }

  lemma BothReplaced(lab: Lab, n: Pid)
    ensures var without := WithoutProcess(WithoutProcess(lab, "daemon"), "relay");
      var replaced := WithProcess(WithProcess(without, "relay", n), "daemon", n + 1);
      Refreshed(lab, n) == if "expiry" in replaced.processes then replaced else WithProcess(replaced, "expiry", n + 2)
  {
    assert (lab.processes - {"daemon"} - {"relay"})["relay" := n]["daemon" := n + 1]
        == lab.processes["relay" := n]["daemon" := n + 1];
  }

  /** The first n of these names, recorded with successive process ids. */
  function Recorded(names: seq<string>, n: nat, first: Pid): map<string, Pid>
    requires n <= |names|
  {
    if n == 0 then map[] else Recorded(names, n - 1, first)[names[n - 1] := first + n - 1]
  }

  lemma AllRecorded(first: Pid)
    ensures var m := Recorded(["relay", "daemon", "expiry"], 3, first);
      m.Keys == {"relay", "daemon", "expiry"} && m["expiry"] == first + 2
  {
    var names := ["relay", "daemon", "expiry"];
    assert Recorded(names, 0, first) == map[];
    assert Recorded(names, 1, first) == map["relay" := first];
    assert Recorded(names, 2, first) == map["relay" := first]["daemon" := first + 1];
  }

  lemma BeforeTheLock(steps: seq<Step>, pid: Pid)
    requires pid in Exec(steps).procs && Exec(steps).procs[pid].pc.Want?
    ensures Exec(steps).lock != Some(pid)
  {
    HolderIsInside(steps);
  }

  lemma PidsAreOld(steps: seq<Step>, pid: Pid)
    requires pid in Exec(steps).procs
    ensures pid < Exec(steps).nextPid
  {
    InvAlways(steps);
  }

  /** What one process does on its own, as the steps it takes. Every state reached
      is that of a run, so what holds over all runs holds here. */
  class Shell {
    var s: State
    ghost var trace: seq<Step>

    ghost predicate Valid()
      reads this
    {
      s == Exec(trace)
    }

    method Take(step: Step)
      requires Valid()
      modifies this
      ensures Valid() && s == Do(old(s), step) && trace == old(trace) + [step]
    {
      s := Do(s, step);
      trace := trace + [step];
      assert trace[..|trace| - 1] == old(trace);
    }

    /** `down`: stops every recorded process, tears the lab down and closes its
        record. The lab's expiry process does not survive it. Without a record it does
        nothing. */
    method Down(pid: Pid)
      requires Valid() && pid in s.procs && s.procs[pid].pc == DownLoad
      modifies this
      ensures Valid() && pid !in s.procs && s.lock == None && s.file == None && s.created == old(s).created
      ensures old(s).file.None? ==> s.closed == old(s).closed && s.teardowns == old(s).teardowns
      ensures old(s).file.Some? && "expiry" in old(s).file.value.processes ==>
        Signals(old(s), old(s).file.value, "expiry") ==> old(s).file.value.processes["expiry"] !in s.procs
      ensures old(s).file.Some? ==>
        && s.closed == old(s).closed + [old(s).file.value.owner]
        && s.teardowns == old(s).teardowns + [Teardown(old(s).procs[pid].role, old(s).file.value.owner)]
    {
      HoldsLock(trace, pid);
      Loading(s, pid);
      if s.file.Some? && "expiry" in s.file.value.processes && Signals(s, s.file.value, "expiry") {
        StopperIsAnother(trace, pid);
      }
      hide Do, Exec;
      Take(Load(pid));
      if pid !in s.procs { return; }
      ghost var owner := old(s).file.value.owner;
      ghost var expires := "expiry" in old(s).file.value.processes && Signals(old(s), old(s).file.value, "expiry");
      while s.procs[pid].pc.lab.processes != map[]
        invariant Valid() && pid in s.procs && s.procs[pid].pc.Stopping? && s.procs[pid].pc.lab.owner == owner
        invariant Inside(s, pid, s.procs[pid].pc, old(s))
        invariant expires ==> old(s).file.value.processes["expiry"] != pid
        invariant expires ==> ExpiryEnding(s, s.procs[pid].pc.lab, old(s).file.value.processes["expiry"])
        decreases |s.procs[pid].pc.lab.processes|
      {
        var name :| name in s.procs[pid].pc.lab.processes;
        StopperStays(trace, pid, name);
        StoppingOne(s, pid, s.procs[pid].pc.lab, name);
        if expires {
          ExpiryEndingStays(s, pid, s.procs[pid].pc.lab, name, old(s).file.value.processes["expiry"]);
        }
        Take(StopProcess(pid, name));
      }
      Closing(s, pid, s.procs[pid].pc.lab);
      Take(Compose(pid));
      Take(Rename(pid));
    }

    /** `up`: with the lock free and no lab recorded it creates one and starts its
        processes, the expiry process last. If one of the steps fails, it takes the lab
        down again. It does nothing if a lab is recorded or the lock is held. */
    method Up(pid: Pid, owner: Owner, failsAfter: Option<nat>)
      requires Valid() && pid in s.procs && s.procs[pid].pc == Want(Command.Up) && owner !in s.created
      modifies this
      ensures Valid() && pid !in s.procs
      ensures old(s).lock.Some? || old(s).file.Some? ==>
        && s.lock == old(s).lock && s.file == old(s).file
        && s.created == old(s).created && s.closed == old(s).closed && s.teardowns == old(s).teardowns
      ensures old(s).lock.None? && old(s).file.None? ==>
        && s.lock == None && s.created == old(s).created + [owner]
        && if failsAfter.Some? && failsAfter.value <= 3
           then s.file == None && s.closed == old(s).closed + [owner]
           else s.closed == old(s).closed && s.teardowns == old(s).teardowns && IsUp(s, owner)
    {
      BeforeTheLock(trace, pid);
      TryingLock(s, pid);
      hide Do, Exec;
      Take(TryLock(pid));
      if pid !in s.procs { return; }
      Checking(s, pid);
      Take(Check(pid));
      if pid !in s.procs { return; }
      Creating(s, pid, owner);
      Take(Create(pid, owner));
      var failed := StartAll(pid, owner, failsAfter);
      if failed {
        Failing(s, pid, s.procs[pid].pc.lab);
        Take(FailUp(pid));
        Down(pid);
      } else {
        Leaving(s, pid, s.procs[pid].pc.lab);
        Take(Leave(pid));
      }
    }

    method StartAll(pid: Pid, owner: Owner, failsAfter: Option<nat>) returns (failed: bool)
      requires Valid() && pid in s.procs && Inside(s, pid, UpRunning(Lab(owner, map[])), s)
      requires s.file == Some(Lab(owner, map[]))
      modifies this
      ensures Valid() && pid in s.procs && s.file.Some? && s.file.value.owner == owner
      ensures Inside(s, pid, UpRunning(s.file.value), old(s))
      ensures failed <==> failsAfter.Some? && failsAfter.value <= 3
      ensures !failed ==> IsUp(s, owner)
    {
      PidsAreOld(trace, pid);
      hide Do, Exec;
      var names, first := ["relay", "daemon", "expiry"], s.nextPid;
      for k := 0 to 3
        invariant Valid() && pid in s.procs && pid < first && s.nextPid == first + k
        invariant s.file == Some(Lab(owner, Recorded(names, k, first)))
        invariant Inside(s, pid, UpRunning(s.file.value), old(s))
        invariant failsAfter.Some? ==> failsAfter.value >= k
        invariant k == 3 ==> first + 2 in s.procs && s.procs[first + 2] == Proc(Expiry(owner), Poll)
      {
        if failsAfter == Some(k) { return true; }
        StartingOne(s, pid, s.file.value, names[k]);
        Take(StartProcess(pid, names[k]));
      }
      AllRecorded(first);
      failed := failsAfter == Some(3);
    }

    /** `refresh`: replaces the relay and the daemon of the recorded lab, and gives it an
        expiry process if none is recorded. It changes nothing if the lock is held, no
        lab is recorded, or either of the two is missing. */
    method Refresh(pid: Pid)
      requires Valid() && pid in s.procs && s.procs[pid].pc == Want(Edit)
      modifies this
      ensures Valid() && pid !in s.procs && s.lock == old(s).lock
      ensures s.created == old(s).created && s.closed == old(s).closed && s.teardowns == old(s).teardowns
      ensures if old(s).lock.None? && old(s).file.Some? && {"daemon", "relay"} <= old(s).file.value.processes.Keys
        then s.file == Some(Refreshed(old(s).file.value, old(s).nextPid))
        else s.file == old(s).file
    {
      BeforeTheLock(trace, pid);
      TryingLock(s, pid);
      hide Do, Exec;
      Take(TryLock(pid));
      if pid !in s.procs { return; }
      LoadingForEdit(s, pid);
      Take(Load(pid));
      if pid !in s.procs { return; }
      hide Refreshed;
      if "daemon" in s.file.value.processes && "relay" in s.file.value.processes { Replace(pid); }
      Leaving(s, pid, s.file.value);
      Take(Leave(pid));
    }

    method Replace(pid: Pid)
      requires Valid() && pid in s.procs && s.file.Some? && Inside(s, pid, Editing(s.file.value), s)
      requires "daemon" in s.file.value.processes && "relay" in s.file.value.processes
      modifies this
      ensures Valid() && s.file == Some(Refreshed(old(s).file.value, old(s).nextPid))
      ensures Inside(s, pid, Editing(s.file.value), old(s))
    {
      BothReplaced(s.file.value, s.nextPid);
      hide Do, Exec, Refreshed;
      StopForEdit(pid, "daemon");
      StopForEdit(pid, "relay");
      StartForEdit(pid, "relay");
      StartForEdit(pid, "daemon");
      if "expiry" !in s.file.value.processes { StartForEdit(pid, "expiry"); }
    }

    method StopForEdit(pid: Pid, name: string)
      requires Valid() && pid in s.procs && s.file.Some? && Inside(s, pid, Editing(s.file.value), s)
      requires name in s.file.value.processes
      modifies this
      ensures Valid() && s.file == Some(WithoutProcess(old(s).file.value, name)) && s.nextPid == old(s).nextPid
      ensures Inside(s, pid, Editing(s.file.value), old(s))
    {
      StopperStays(trace, pid, name);
      StoppingForEdit(s, pid, s.file.value, name);
      Take(StopProcess(pid, name));
    }

    method StartForEdit(pid: Pid, name: string)
      requires Valid() && pid in s.procs && s.file.Some? && Inside(s, pid, Editing(s.file.value), s)
      modifies this
      ensures Valid() && s.file == Some(WithProcess(old(s).file.value, name, old(s).nextPid))
      ensures s.nextPid == old(s).nextPid + 1 && Inside(s, pid, Editing(s.file.value), old(s))
    {
      PidsAreOld(trace, pid);
      StartingOne(s, pid, s.file.value, name);
      Take(StartProcess(pid, name));
    }

    /** The expiry process: it polls until its time is up, then takes the lock and
        checks again. If its lab is the recorded one it closes it; otherwise it
        changes nothing. */
    method Expire(pid: Pid, polls: nat)
      requires Valid() && pid in s.procs && s.procs[pid].pc == Poll && s.lock == None
      modifies this
      ensures Valid() && pid !in s.procs && s.lock == None && s.created == old(s).created
      ensures if Owns(old(s), pid)
        then s.file == None && s.closed == old(s).closed + [old(s).file.value.owner]
          && s.teardowns == old(s).teardowns + [Teardown(old(s).procs[pid].role, old(s).file.value.owner)]
        else s.file == old(s).file && s.closed == old(s).closed && s.teardowns == old(s).teardowns
    {
      hide Do, Exec;
      for i := 0 to polls
        invariant Valid() && s == old(s)
      {
        Polling(s, pid);
        Take(PollExists(pid));
        if pid !in s.procs { return; }
        Take(PollOwner(pid));
        if pid !in s.procs { return; }
      }
      Entering(s, pid);
      Take(Deadline(pid));
      Take(Acquire(pid));
      Rechecking(s, pid);
      Take(RecheckExists(pid));
      if pid !in s.procs { return; }
      Take(RecheckOwner(pid));
      if pid !in s.procs { return; }
      Popping(s, pid);
      Take(PopAndSave(pid));
      Down(pid);
    }
  }
}
