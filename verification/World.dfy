/**
 The part of the operating system the core lifecycle touches: the process table, the TUN
 interface and the runtime state file. Every system call is one step, and before each one the
 environment may move. The run so far is kept as data, so that a crash can cut it at any step.
 */
module Worlds {
  import opened Common
  import opened RuntimeStates

  /** A process identity: a pid may be reused, a pid with its start time is not. */
  datatype Id = Id(pid: int, ticks: int)

  /** `core` marks the processes that the manager spawned. */
  datatype Process = Process(ticks: int, executable: string, core: bool, zombie: bool)

  /** What load() makes of the state file. */
  datatype StateFile = Absent | Unreadable | Holds(record: RuntimeState)

  function FileAfterSave(r: RuntimeState): (f: StateFile)
    ensures Savable(r) ==> f == Holds(r)
  {
    LoadInvertsSave(r);
    match Decode(Encode(r))
    case Success(state) => Holds(state)
    case Failure(_) => Unreadable
  }

  /** The machine state; the fields from `pending` on only remember the past. */
  datatype State = State(
    processes: map<int, Process>,
    children: set<int>,        // unreaped children of the running controller
    clock: int,                // start time of the next process
    tun: bool,
    file: StateFile,
    pending: Option<Id>,       // core spawned, its record not saved yet
    saved: set<Id>,            // cores whose record was saved
    abandoned: set<Id>,        // cores a controller left behind before saving their record
    forgotten: set<Id>,        // cores that were alive and recorded when the file was cleared
    unread: bool,              // the last load() failed, and the file is still the same
    failedLoads: nat,          // how often load() failed to read a record
    tunSeen: set<Id>,          // cores for which TUN was observed
    termSent: map<Id, nat>,    // when SIGTERM was sent, counted in sleeps
    sleeps: nat,
    attempts: nat,             // calls of spawnCore
    tunClear: bool,            // a look found no TUN after the last spawn and the last SIGTERM
    checked: bool)             // the core accepted the configuration after the last spawn

  function IdOf(r: RuntimeState): Id { Id(r.pid, r.startTicks) }

  predicate Alive(s: State, id: Id) {
    id.pid in s.processes && s.processes[id.pid].ticks == id.ticks && !s.processes[id.pid].zombie
  }

  predicate LiveCore(s: State, id: Id) {
    Alive(s, id) && s.processes[id.pid].core
  }

  /** isManagedProcessRunning: the identity and the executable match; a zombie has no executable. */
  predicate Managed(s: State, r: RuntimeState) {
    Alive(s, IdOf(r)) && s.processes[r.pid].executable == r.executable
  }

  predicate Recorded(s: State, id: Id) {
    s.file.Holds? && IdOf(s.file.record) == id && Managed(s, s.file.record)
  }

  // ----- what the environment may do between two steps

  predicate Continues(s: State, t: State, pid: int) {
    && pid in s.processes && pid in t.processes
    && var p, q := s.processes[pid], t.processes[pid];
       p.ticks == q.ticks && p.core == q.core && (p.core ==> p.executable == q.executable) && (p.zombie ==> q.zombie)
  }

  predicate Arrived(s: State, t: State, pid: int) {
    && pid in t.processes && pid !in s.children && 0 < pid
    && s.clock <= t.processes[pid].ticks < t.clock && !t.processes[pid].core
  }

  /** Processes exit, are reaped, exec and start; dead pids come back with fresh start times; TUN comes and goes. */
  predicate EnvStep(s: State, t: State) {
    && s.clock <= t.clock
    && t == s.(processes := t.processes, clock := t.clock, tun := t.tun)
    && (forall pid | pid in t.processes :: Continues(s, t, pid) || Arrived(s, t, pid))
    && (forall pid | pid in s.children :: Continues(s, t, pid))
  }

  // ----- steps and their rules

  datatype Event =
    | Environment
    | Spawned(id: Id, executable: string)
    | SpawnFailed
    | Reaped(pid: int)
    | TunObserved(id: Id)
    | TunAbsent(failed: bool)    // a look that finds no TUN, or fails and takes it for absent
    | Loaded                     // load() says what the file is
    | LoadFailed                 // load() cannot read the record in the file
    | ConfigChecked
    | Terminated(r: RuntimeState)
    | Killed(r: RuntimeState)
    | ChildKilled(pid: int)
    | Saved(r: RuntimeState)
    | Cleared
    | Slept
    | GaveUp
    | Crashed

  const TERM_POLLS := 50
  const KILL_POLLS := 20

  /** The effect of a step on the machine. */
  predicate Effect(s: State, e: Event, t: State) {
    match e
    case Environment => EnvStep(s, t)
    case Spawned(id, exe) =>
      && 0 < id.pid && id.pid !in s.processes && id.ticks == s.clock
      && t == AfterSpawn(s, id, exe)
    case SpawnFailed => t == s.(attempts := s.attempts + 1, checked := false)
    case Reaped(pid) =>
      && pid in s.children && pid in s.processes && s.processes[pid].zombie
      && t == s.(processes := s.processes - {pid}, children := s.children - {pid})
    case TunObserved(id) => s.tun && t == s.(tunSeen := s.tunSeen + {id})
    case TunAbsent(failed) => (failed || !s.tun) && t == s.(tunClear := true)
    case Loaded => t == AfterLoad(s, false)
    case LoadFailed => s.file.Holds? && t == AfterLoad(s, true)
    case ConfigChecked => t == s.(checked := true)
    case Terminated(r) => t == s.(termSent := s.termSent[IdOf(r) := s.sleeps], tunClear := false)
    case Killed(r) => t == s
    case ChildKilled(pid) => t == s
    case Saved(r) => t == AfterSave(s, r)
    case Cleared => t == AfterClear(s)
    case Slept => t == s.(sleeps := s.sleeps + 1)
    case GaveUp => t == s.(abandoned := s.abandoned + PendingCore(s), pending := None)
    case Crashed => t == AfterCrash(s)
  }

  function PendingCore(s: State): set<Id> {
    if s.pending.Some? && LiveCore(s, s.pending.value) then {s.pending.value} else {}
  }

  /** The controller is gone; what it alone knew is lost with it. */
  function AfterCrash(s: State): State {
    s.(children := {}, abandoned := s.abandoned + PendingCore(s), pending := None,
       tunClear := false, checked := false, unread := false)
  }

  /** The live core that the file records. */
  function RecordedCore(s: State): set<Id> {
    if s.file.Holds? && LiveCore(s, IdOf(s.file.record)) && Managed(s, s.file.record) then {IdOf(s.file.record)} else {}
  }

  function AfterSpawn(s: State, id: Id, executable: string): State {
    s.(processes := s.processes[id.pid := Process(id.ticks, executable, true, false)],
       children := s.children + {id.pid}, clock := s.clock + 1, pending := Some(id),
       attempts := s.attempts + 1, tunClear := false, checked := false)
  }

  function AfterSave(s: State, r: RuntimeState): State {
    s.(file := FileAfterSave(r), saved := s.saved + {IdOf(r)}, pending := None, unread := false)
  }

  function AfterLoad(s: State, failed: bool): State {
    s.(unread := failed, failedLoads := if failed then s.failedLoads + 1 else s.failedLoads)
  }

  /** A recorded core that is still alive is lost with the file. */
  function AfterClear(s: State): State {
    s.(file := Absent, forgotten := s.forgotten + RecordedCore(s), unread := false)
  }

  /** A core that no later command finds: left behind without a record, or its record was cleared. */
  predicate Lost(s: State, id: Id) { id in s.abandoned || id in s.forgotten }

  /** No live core but the lost ones. */
  ghost predicate OnlyLost(s: State) {
    forall id | LiveCore(s, id) :: Lost(s, id)
  }

  ghost predicate NoneRecorded(s: State) {
    forall id | LiveCore(s, id) :: !Recorded(s, id)
  }

  /** r describes the process of the record in the file, or the core that was spawned last. */
  predicate Named(s: State, r: RuntimeState) {
    || (s.file.Holds? && IdOf(s.file.record) == IdOf(r) && s.file.record.executable == r.executable)
    || s.pending == Some(IdOf(r))
  }

  /** When the manager takes a step. The operating system does not enforce this: the manager's code does. */
  ghost predicate Rule(s: State, e: Event) {
    match e
    case Spawned(id, exe) => OnlyLost(s) && s.file == Absent && s.tunClear && s.checked
    case TunObserved(id) => id.pid in s.children && Continues(s, s, id.pid) && s.processes[id.pid].ticks == id.ticks
    case Terminated(r) => Managed(s, r) && Named(s, r)
    case Killed(r) =>
      Managed(s, r) && Named(s, r) && IdOf(r) in s.termSent && s.sleeps == s.termSent[IdOf(r)] + TERM_POLLS
    case ChildKilled(pid) => pid in s.children && s.pending.Some? && s.pending.value.pid == pid
    case Saved(r) =>
      && Storable(r)
      && if r.phase == "starting" then
           && NoneRecorded(s) && !s.file.Holds? && s.pending == Some(IdOf(r))
           && r.pid in s.children && Continues(s, s, r.pid)
           && s.processes[r.pid] == Process(r.startTicks, r.executable, true, s.processes[r.pid].zombie)
         else
           && s.file == Holds(r.(phase := "starting")) && IdOf(r) in s.saved && IdOf(r) in s.tunSeen
           && (s.pending.Some? ==> !LiveCore(s, s.pending.value))
    case Cleared => NoneRecorded(s) || s.unread
    case _ => true
  }

  ghost predicate Allowed(s: State, e: Event, t: State) {
    Effect(s, e, t) && Rule(s, e)
  }

  // ----- the invariant of every state

  ghost predicate Sane(s: State) {
    && (forall pid | pid in s.processes :: 0 < pid && s.processes[pid].ticks < s.clock)
    && (forall pid | pid in s.children :: pid in s.processes)
    && (forall id | id in s.saved || Lost(s, id) || s.pending == Some(id) :: id.ticks < s.clock)
  }

  ghost predicate Safe(s: State) {
    && Sane(s)
    && (forall id | LiveCore(s, id) :: Lost(s, id) || s.pending == Some(id) || Recorded(s, id))
    && s.saved !! s.abandoned
    && (forall id | id in s.forgotten && LiveCore(s, id) :: !Recorded(s, id))
    && (s.pending.Some? ==> s.pending.value !in s.saved && !Lost(s, s.pending.value))
    && (s.pending.Some? && LiveCore(s, s.pending.value) ==> NoneRecorded(s))
  }

  lemma EnvKeepsCores(s: State, t: State)
    requires Sane(s) && EnvStep(s, t)
    ensures Sane(t)
    ensures forall id | LiveCore(t, id) :: LiveCore(s, id) && s.processes[id.pid].executable == t.processes[id.pid].executable
    ensures forall id | LiveCore(t, id) :: Recorded(t, id) <==> Recorded(s, id)
  {
    forall id | LiveCore(t, id)
      ensures LiveCore(s, id) && s.processes[id.pid].executable == t.processes[id.pid].executable
    {
      assert Continues(s, t, id.pid);
    }
  }

  lemma SpawnKeepsSafe(s: State, id: Id, executable: string, t: State)
    requires Safe(s) && Allowed(s, Spawned(id, executable), t)
    ensures Safe(t)
  {
    assert id !in s.saved && !Lost(s, id);
    assert forall x | LiveCore(t, x) && x != id :: LiveCore(s, x);
  }

  lemma SaveKeepsSafe(s: State, r: RuntimeState)
    requires Safe(s) && Rule(s, Saved(r))
    ensures Safe(AfterSave(s, r))
  {
    var t := AfterSave(s, r);
    assert t.file == Holds(r) && t.processes == s.processes;
    assert IdOf(r) !in s.abandoned;
    forall id | LiveCore(t, id)
      ensures (Lost(t, id) || Recorded(t, id)) && !(id in t.forgotten && Recorded(t, id))
    {
      assert LiveCore(s, id);
    }
  }

  lemma ClearKeepsSafe(s: State, t: State)
    requires Safe(s) && Allowed(s, Cleared, t)
    ensures Safe(t)
  {
    assert forall id :: LiveCore(t, id) <==> LiveCore(s, id);
    forall id | LiveCore(t, id)
      ensures (Lost(t, id) || t.pending == Some(id)) && !Recorded(t, id)
    {
      assert Recorded(s, id) ==> id in RecordedCore(s);
    }
  }

  predicate Leaves(e: Event) { e.GaveUp? || e.Crashed? || e.Reaped? }

  lemma LeavingKeepsSafe(s: State, e: Event, t: State)
    requires Safe(s) && Allowed(s, e, t) && Leaves(e)
    ensures Safe(t)
  {
    assert forall id | LiveCore(t, id) :: LiveCore(s, id) && (Recorded(t, id) ==> Recorded(s, id));
  }

  /** Same processes, same file, and the same cores on their way, saved and lost. */
  predicate SameCores(s: State, t: State) {
    && t.processes == s.processes && t.children == s.children && t.clock == s.clock && t.file == s.file
    && t.pending == s.pending && t.saved == s.saved && t.abandoned == s.abandoned && t.forgotten == s.forgotten
  }

  lemma SameCoresKeepSafe(s: State, t: State)
    requires Safe(s) && SameCores(s, t)
    ensures Safe(t)
  {
    assert forall id :: (LiveCore(t, id) <==> LiveCore(s, id)) && (Recorded(t, id) <==> Recorded(s, id));
  }

  /** The remaining steps change neither processes nor file. */
  lemma OtherStepKeepsSafe(s: State, e: Event, t: State)
    requires Safe(s) && Effect(s, e, t)
    requires !e.Spawned? && !e.Saved? && !e.Environment? && !e.Cleared? && !Leaves(e)
    ensures Safe(t)
  {
    assert SameCores(s, t);
    SameCoresKeepSafe(s, t);
  }

  lemma StepKeepsSafe(s: State, e: Event, t: State)
    requires Safe(s) && Allowed(s, e, t)
    ensures Safe(t)
  {
    if e.Environment? {
      EnvKeepsCores(s, t);
    } else if e.Spawned? {
      SpawnKeepsSafe(s, e.id, e.executable, t);
    } else if e.Saved? {
      SaveKeepsSafe(s, e.r);
    } else if e.Cleared? {
      ClearKeepsSafe(s, t);
    } else if Leaves(e) {
      LeavingKeepsSafe(s, e, t);
    } else {
      OtherStepKeepsSafe(s, e, t);
    }
  }

  /** In a safe state every core that was not lost is one and the same. */
  lemma OneCore(s: State, a: Id, b: Id)
    requires Safe(s) && LiveCore(s, a) && LiveCore(s, b) && !Lost(s, a) && !Lost(s, b)
    ensures a == b
  {
  }

  // ----- runs

  datatype Moment = Moment(event: Event, state: State)
  type Trace = seq<Moment>

  ghost predicate StepAt(trace: Trace, i: nat)
    requires 0 < i < |trace|
  {
    Allowed(trace[i - 1].state, trace[i].event, trace[i].state)
  }

  /** A run: it starts in a safe state and every step is allowed. */
  ghost predicate Lawful(trace: Trace) {
    && trace != [] && Safe(trace[0].state)
    && forall i | 0 < i < |trace| :: StepAt(trace, i)
  }

  lemma LongerIsLawful(trace: Trace, e: Event, t: State)
    requires Lawful(trace) && Allowed(trace[|trace| - 1].state, e, t)
    ensures Lawful(trace + [Moment(e, t)])
  {
    var longer := trace + [Moment(e, t)];
    forall i | 0 < i < |longer|
      ensures StepAt(longer, i)
    {
      if i < |trace| {
        assert StepAt(trace, i);
      }
    }
  }

  lemma ShorterIsLawful(trace: Trace, k: nat)
    requires Lawful(trace) && k < |trace|
    ensures Lawful(trace[..k + 1])
  {
    var prefix := trace[..k + 1];
    forall i | 0 < i < |prefix|
      ensures StepAt(prefix, i)
    {
      assert StepAt(trace, i);
    }
  }

  lemma {:induction false} RunsAreSafe(trace: Trace, i: nat)
    requires Lawful(trace) && i < |trace|
    ensures Safe(trace[i].state)
  {
    if i > 0 {
      RunsAreSafe(trace, i - 1);
      assert StepAt(trace, i);
      StepKeepsSafe(trace[i - 1].state, trace[i].event, trace[i].state);
    }
  }

  datatype Waited = Exited | Running | NotAChild | Broken
  datatype Signalled = NotManaged | Delivered | Denied

  // ----- what the manager may still rely on after some steps

  /** No step in between touched the file, spawned a core or reaped a child. */
  ghost predicate Calm(s: State, t: State) {
    && Fewer(s, t) && t.children == s.children && t.termSent == s.termSent
    && (s.tunClear ==> t.tunClear) && t.checked == s.checked
    && (forall pid | pid in s.children && pid in s.processes :: Continues(s, t, pid))
  }

  /** Cores may have died or been reaped, but none came. */
  ghost predicate Fewer(s: State, t: State) {
    && t.file == s.file && t.saved == s.saved && t.abandoned == s.abandoned && s.tunSeen <= t.tunSeen
    && s.clock <= t.clock && t.attempts == s.attempts && t.children <= s.children
    && t.pending == s.pending && t.forgotten == s.forgotten && t.unread == s.unread && t.failedLoads == s.failedLoads
    && (forall id | LiveCore(t, id) :: LiveCore(s, id) && s.processes[id.pid].executable == t.processes[id.pid].executable)
  }

  /** In between no load() failed and no live core was forgotten. */
  predicate KeepsMemory(s: State, t: State) {
    t.forgotten == s.forgotten && t.failedLoads == s.failedLoads && (!s.unread ==> !t.unread)
  }

  /** A load() in between failed to read the record. */
  predicate Missed(s: State, t: State) { t.failedLoads != s.failedLoads }

  /** No core is on its way: what holds between two commands. */
  ghost predicate Settled(s: State) {
    s.pending.Some? ==> !LiveCore(s, s.pending.value)
  }

  lemma CalmAfterSave(s: State, t: State, r: RuntimeState)
    requires Calm(s, t)
    ensures Calm(AfterSave(s, r), AfterSave(t, r))
  {
  }

  lemma CalmAfterLoad(s: State, t: State, failed: bool)
    requires Calm(s, t)
    ensures Calm(AfterLoad(s, failed), AfterLoad(t, failed))
  {
  }

  /** The file is gone; the core it recorded, if still alive, is forgotten, and no other core came. */
  ghost predicate ClearedSince(s: State, t: State) {
    && Calm(AfterClear(s).(forgotten := t.forgotten), t)
    && s.forgotten <= t.forgotten <= s.forgotten + RecordedCore(s)
    && (OnlyLost(s) || Settled(s) ==> OnlyLost(t))
  }

  lemma ClearLoses(s: State, t: State)
    requires Safe(s) && Safe(t) && EnvStep(s, t) && Calm(s, t)
    ensures ClearedSince(s, AfterClear(t))
  {
    EnvKeepsCores(s, t);
    assert RecordedCore(t) <= RecordedCore(s);
  }

  lemma FewerKeepsRecorded(s: State, t: State)
    requires Fewer(s, t)
    ensures RecordedCore(t) <= RecordedCore(s)
  {
  }

  lemma RulesSurviveEnv(s: State, t: State, e: Event)
    requires Sane(s) && EnvStep(s, t) && Rule(s, e)
    requires e.Saved? || e.Cleared? || e.Spawned?
    ensures Rule(t, e)
  {
    EnvKeepsCores(s, t);
  }

  /** The last step was a look that reported no TUN. */
  predicate LookedAway(trace: Trace) { trace != [] && trace[|trace| - 1].event.TunAbsent? }

  /** The signals that the manager sends after spawnCore has returned. */
  predicate IsSignal(e: Event) { e.Terminated? || e.Killed? || e.ChildKilled? }

  /** From step `from` on, no process was sent a signal. */
  predicate NoSignal(trace: Trace, from: nat) {
    forall i | from <= i < |trace| :: !IsSignal(trace[i].event)
  }

  class World {
    var now: State
    var trace: Trace

    ghost predicate Valid()
      reads this
    {
      Lawful(trace) && trace[|trace| - 1].state == now && Safe(now)
    }

    constructor (initial: State)
      requires Safe(initial)
      ensures Valid() && now == initial
    {
      now := initial;
      trace := [Moment(Environment, initial)];
    }

    method Take(e: Event, next: State)
      requires Valid() && Allowed(now, e, next)
      modifies this
      ensures Valid() && now == next && trace == old(trace) + [Moment(e, next)]
    {
      StepKeepsSafe(now, e, next);
      LongerIsLawful(trace, e, next);
      trace := trace + [Moment(e, next)];
      now := next;
    }

    /** The environment moves. */
    method Tick()
      requires Valid()
      modifies this
      ensures Valid() && EnvStep(old(now), now) && Calm(old(now), now)
      ensures trace == old(trace) + [Moment(Environment, now)]
    {
      assert EnvStep(now, now);
      var next :| EnvStep(now, next);
      EnvKeepsCores(now, next);
      Take(Environment, next);
    }

    /** if_nametoindex(): zero when there is no such interface, but also when the look itself fails. */
    method TunExists() returns (exists_: bool)
      requires Valid()
      modifies this
      ensures Valid() && Calm(old(now), now) && old(trace) <= trace && now.sleeps == old(now).sleeps
      ensures if exists_ then now.tun else now.tunClear
      ensures exists_ <==> !LookedAway(trace)
    {
      Tick();
      var failed: bool := *;
      exists_ := now.tun && !failed;
      if !exists_ {
        Take(TunAbsent(failed), now.(tunClear := true));
      }
    }

    /** The configuration file is written and the core's own check of it succeeds. */
    method CheckConfig() returns (ok: bool)
      requires Valid()
      modifies this
      ensures Valid() && old(trace) <= trace && now.sleeps == old(now).sleeps
      ensures Calm(old(now).(checked := now.checked), now) && (ok ==> now.checked)
    {
      Tick();
      ok := *;
      if ok {
        Take(ConfigChecked, now.(checked := true));
      }
    }

    /** TUN is looked up while waiting for the core `id`, still a child. */
    method ObserveTun(id: Id) returns (seen: bool)
      requires Valid() && id.pid in now.children && now.processes[id.pid].ticks == id.ticks
      modifies this
      ensures Valid() && Calm(old(now), now) && old(trace) <= trace && now.sleeps == old(now).sleeps
      ensures seen ==> id in now.tunSeen
    {
      Tick();
      assert Continues(old(now), now, id.pid);
      var failed: bool := *;
      seen := now.tun && !failed;
      if seen {
        Take(TunObserved(id), now.(tunSeen := now.tunSeen + {id}));
      }
    }

    method Sleep()
      requires Valid()
      modifies this
      ensures Valid() && Calm(old(now), now) && old(trace) <= trace && now.sleeps == old(now).sleeps + 1
    {
      Tick();
      Take(Slept, now.(sleeps := now.sleeps + 1));
    }

    /** waitpid(pid, WNOHANG). */
    method PollChild(pid: int) returns (waited: Waited)
      requires Valid()
      modifies this
      ensures Valid() && Fewer(old(now), now) && old(trace) <= trace
      ensures now.sleeps == old(now).sleeps && now.termSent == old(now).termSent
      ensures waited.Exited? ==> pid !in now.processes && now.children == old(now).children - {pid}
      ensures !waited.Exited? ==> Calm(old(now), now)
    {
      Tick();
      if pid in now.children && now.processes[pid].zombie {
        Take(Reaped(pid), now.(processes := now.processes - {pid}, children := now.children - {pid}));
        return Exited;
      }
      var fault: bool := *;
      waited := if pid !in now.children then NotAChild else if fault then Broken else Running;
    }

    method IsManaged(r: RuntimeState) returns (managed: bool)
      requires Valid()
      modifies this
      ensures Valid() && Calm(old(now), now) && now.sleeps == old(now).sleeps
      ensures managed == Managed(now, r)
      ensures trace == old(trace) + [Moment(Environment, now)]
    {
      Tick();
      managed := Managed(now, r);
    }

    /** The identity check and the SIGTERM right after it. */
    method CheckAndTerminate(r: RuntimeState) returns (outcome: Signalled)
      requires Valid() && Named(now, r)
      modifies this
      ensures Valid() && Fewer(old(now), now) && old(trace) <= trace && now.sleeps == old(now).sleeps
      ensures outcome.NotManaged? <==> !Managed(now, r)
      ensures !outcome.Delivered? ==> Calm(old(now), now)
      ensures outcome.Delivered? ==> IdOf(r) in now.termSent && now.termSent[IdOf(r)] == now.sleeps
    {
      Tick();
      if !Managed(now, r) {
        return NotManaged;
      }
      var denied: bool := *;
      if denied {
        return Denied;
      }
      Take(Terminated(r), now.(termSent := now.termSent[IdOf(r) := now.sleeps], tunClear := false));
      outcome := Delivered;
    }

    /** The identity check and the SIGKILL right after it. */
    method CheckAndKill(r: RuntimeState) returns (outcome: Signalled)
      requires Valid() && Named(now, r)
      requires IdOf(r) in now.termSent && now.sleeps == now.termSent[IdOf(r)] + TERM_POLLS
      modifies this
      ensures Valid() && Calm(old(now), now) && old(trace) <= trace && now.sleeps == old(now).sleeps
      ensures outcome.NotManaged? <==> !Managed(now, r)
    {
      Tick();
      if !Managed(now, r) {
        return NotManaged;
      }
      var denied: bool := *;
      if denied {
        return Denied;
      }
      Take(Killed(r), now);
      outcome := Delivered;
    }

    /** state_.load: what the file is, unless it cannot be opened or read. */
    method Load() returns (found: StateFile, ghost failed: bool)
      requires Valid()
      modifies this
      ensures Valid() && old(trace) <= trace && now.sleeps == old(now).sleeps
      ensures Calm(AfterLoad(old(now), failed), now)
      ensures if failed then now.file.Holds? && !found.Holds? else found == now.file
      ensures NoSignal(trace, |old(trace)|)
    {
      Tick();
      var fault: bool := *;
      fault := fault && now.file.Holds?;
      CalmAfterLoad(old(now), now, fault);
      failed := fault;
      found := if fault then Unreadable else now.file;
      Take(if fault then LoadFailed else Loaded, AfterLoad(now, fault));
    }

    /** state_.save: the state file is replaced as a whole or not at all. */
    method Save(r: RuntimeState) returns (ok: bool)
      requires Valid() && Rule(now, Saved(r))
      modifies this
      ensures Valid() && old(trace) <= trace && now.sleeps == old(now).sleeps
      ensures !ok ==> Calm(old(now), now)
      ensures ok ==> Calm(AfterSave(old(now), r), now)
    {
      Tick();
      RulesSurviveEnv(old(now), now, Saved(r));
      ok := *;
      if ok {
        CalmAfterSave(old(now), now, r);
        Take(Saved(r), AfterSave(now, r));
      }
    }

    method TakeClear()
      requires Valid() && (NoneRecorded(now) || now.unread)
      modifies this
      ensures Valid() && now == AfterClear(old(now)) && trace == old(trace) + [Moment(Cleared, now)]
    {
      Take(Cleared, AfterClear(now));
    }

    /** state_.clear: fails only when an existing file cannot be removed. */
    method Clear() returns (ok: bool)
      requires Valid() && (NoneRecorded(now) || now.unread)
      modifies this
      ensures Valid() && old(trace) <= trace && now.sleeps == old(now).sleeps
      ensures !ok ==> Calm(old(now), now) && now.file != Absent
      ensures ok ==> ClearedSince(old(now), now)
      ensures NoSignal(trace, |old(trace)|)
    {
      Tick();
      RulesSurviveEnv(old(now), now, Cleared);
      ok := *;
      ok := ok || now.file.Absent?;
      if ok {
        ClearLoses(old(now), now);
        TakeClear();
      }
    }

    method TakeSpawn(id: Id, executable: string)
      requires Valid() && Rule(now, Spawned(id, executable))
      requires 0 < id.pid && id.pid !in now.processes && id.ticks == now.clock
      modifies this
      ensures Valid() && now == AfterSpawn(old(now), id, executable)
      ensures trace == old(trace) + [Moment(Spawned(id, executable), now)]
    {
      Take(Spawned(id, executable), AfterSpawn(now, id, executable));
    }

    method TakeNoSpawn()
      requires Valid()
      modifies this
      ensures Valid() && now == old(now).(attempts := old(now).attempts + 1, checked := false)
      ensures trace == old(trace) + [Moment(SpawnFailed, now)]
    {
      Take(SpawnFailed, now.(attempts := now.attempts + 1, checked := false));
    }

    /** spawnCore, from fork to the exec handshake; a failed child has been reaped. */
    method Spawn(executable: string) returns (child: Option<int>)
      requires Valid() && OnlyLost(now) && now.file == Absent && now.tunClear && now.checked
      modifies this
      ensures Valid() && old(trace) <= trace && now.sleeps == old(now).sleeps
      ensures now.attempts == old(now).attempts + 1
      ensures child.None? ==> Calm(old(now).(attempts := now.attempts, checked := false), now)
      ensures child.Some? ==>
        && child.value in now.children && child.value in now.processes
        && now.processes[child.value] == Process(now.processes[child.value].ticks, executable, true, false)
        && 0 < child.value < 0x8000_0000
        && now.pending == Some(Id(child.value, now.processes[child.value].ticks))
        && now.file == Absent && now.abandoned == old(now).abandoned && KeepsMemory(old(now), now)
        && forall id | LiveCore(now, id) :: Lost(now, id) || now.pending == Some(id)
    {
      Tick();
      RulesSurviveEnv(old(now), now, Spawned(Id(0, 0), executable));
      var pid: int, failed: bool := *, *;
      if failed || pid <= 0 || pid in now.processes || 0x8000_0000 <= pid {
        TakeNoSpawn();
        return None;
      }
      var id := Id(pid, now.clock);
      TakeSpawn(id, executable);
      child := Some(pid);
    }

    /** processStartTicks of a child: its pid cannot be reused before it is reaped. */
    method ChildStartTicks(pid: int) returns (ticks: Option<int>)
      requires Valid() && pid in now.children
      modifies this
      ensures Valid() && Calm(old(now), now) && old(trace) <= trace && now.sleeps == old(now).sleeps
      ensures ticks.Some? ==> ticks.value == now.processes[pid].ticks && 0 < ticks.value <= MAX_LONG_LONG
    {
      Tick();
      var failed: bool := *;
      var found := now.processes[pid].ticks;
      ticks := if failed || found <= 0 || MAX_LONG_LONG < found then None else Some(found);
    }

    method KillChild(pid: int) returns (ok: bool)
      requires Valid() && pid in now.children && now.pending.Some? && now.pending.value.pid == pid
      modifies this
      ensures Valid() && Calm(old(now), now) && old(trace) <= trace && now.sleeps == old(now).sleeps
    {
      Tick();
      ok := *;
      if ok {
        Take(ChildKilled(pid), now);
      }
    }

    /** waitpid(pid, 0): returns when the child has died and is reaped. */
    method AwaitChild(pid: int)
      requires Valid() && pid in now.children
      modifies this
      ensures Valid() && Fewer(old(now), now) && old(trace) <= trace && now.sleeps == old(now).sleeps
      ensures pid !in now.processes
    {
      Tick();
      Take(Environment, now.(processes := now.processes[pid := now.processes[pid].(zombie := true)]));
      Take(Reaped(pid), now.(processes := now.processes - {pid}, children := now.children - {pid}));
    }

    /** An exit that leaves a core running without a record. */
    method GiveUp()
      requires Valid()
      modifies this
      ensures Valid() && old(trace) <= trace && now.sleeps == old(now).sleeps
      ensures now == old(now).(abandoned := old(now).abandoned + PendingCore(old(now)), pending := None)
    {
      Take(GaveUp, now.(abandoned := now.abandoned + PendingCore(now), pending := None));
    }

    /** The controller dies right after step k of the run; what it did later never happened. */
    method CrashAt(k: nat)
      requires Valid() && k < |trace|
      modifies this
      ensures Valid() && now.children == {} && now.pending.None?
      ensures trace == old(trace)[..k + 1] + [Moment(Crashed, now)]
    {
      RunsAreSafe(trace, k);
      ShorterIsLawful(trace, k);
      trace := trace[..k + 1];
      now := trace[k].state;
      Take(Crashed, AfterCrash(now));
    }
  }
}
