/** Whole runs: any sequence of commands, with a controller crash after any step, and what every run keeps. */
module LifecycleRuns {
  import opened Common
  import opened RuntimeStates
  import opened Worlds
  import opened ProxyManager

  datatype Request = On(preparation: Result<Plan>) | Off | Query(idle: ProxyStatus)

  ghost predicate Sensible(q: Request) {
    match q
    case On(p) => p.Success? ==> Recordable(p.value)
    case Off => true
    case Query(idle) => !idle.running
  }

  /** Every run of commands and crashes is lawful; a --direct process that ends is a crash after its last step. */
  method Run(w: World, requests: seq<Request>)
    requires w.Valid() && Settled(w.now)
    requires forall i | 0 <= i < |requests| :: Sensible(requests[i])
    modifies w
    ensures w.Valid() && Settled(w.now) && old(w.trace) <= w.trace
  {
    for i := 0 to |requests|
      invariant w.Valid() && Settled(w.now) && old(w.trace) <= w.trace
    {
      RunOne(w, requests[i]);
    }
  }

  method RunOne(w: World, q: Request)
    requires w.Valid() && Settled(w.now) && Sensible(q)
    modifies w
    ensures w.Valid() && Settled(w.now) && old(w.trace) <= w.trace
  {
    var begin := |w.trace| - 1;
    Perform(w, q);
    var crashes: bool := *;
    if crashes {
      var k :| begin <= k < |w.trace|;
      w.CrashAt(k);
    }
  }

  method Perform(w: World, q: Request)
    requires w.Valid() && Settled(w.now) && Sensible(q)
    modifies w
    ensures w.Valid() && Settled(w.now) && old(w.trace) <= w.trace
  {
    w.Tick();
    match q {
      case On(preparation) => var _ := Start(w, preparation);
      case Off => var _ := Stop(w);
      case Query(idle) => var _ := Status(w, idle);
    }
  }

  /** A core that lives after a step lived before it, unless it was spawned just now. */
  lemma LiveBefore(s: State, e: Event, t: State, id: Id)
    requires Sane(s) && Effect(s, e, t) && LiveCore(t, id) && id.ticks < s.clock
    ensures LiveCore(s, id) && s.processes[id.pid].executable == t.processes[id.pid].executable
  {
    if e.Environment? {
      EnvKeepsCores(s, t);
    } else if !e.Spawned? && !e.Reaped? {
      ProcessesStay(s, e, t);
    }
  }

  lemma ProcessesStay(s: State, e: Event, t: State)
    requires Effect(s, e, t) && !e.Environment? && !e.Spawned? && !e.Reaped?
    ensures t.processes == s.processes
  {
  }

  lemma CountersGrow(s: State, e: Event, t: State)
    requires Effect(s, e, t)
    ensures s.clock <= t.clock && s.failedLoads <= t.failedLoads
    ensures t.failedLoads == s.failedLoads && !s.unread ==> !t.unread
  {
  }

  /** From state i on, no load() failed up to state j, and time went on. */
  lemma {:induction false} RunsGrow(trace: Trace, i: nat, j: nat)
    requires Lawful(trace) && i <= j < |trace|
    ensures trace[i].state.clock <= trace[j].state.clock && trace[i].state.failedLoads <= trace[j].state.failedLoads
    ensures trace[j].state.failedLoads == trace[i].state.failedLoads && !trace[i].state.unread ==> !trace[j].state.unread
  {
    if i < j {
      RunsGrow(trace, i, j - 1);
      assert StepAt(trace, j);
      CountersGrow(trace[j - 1].state, trace[j].event, trace[j].state);
    }
  }

  /** While a step leaves the recorded running core alive, it leaves its record alone. */
  lemma RunningRecordSurvives(s: State, e: Event, t: State, r: RuntimeState)
    requires Safe(s) && Allowed(s, e, t) && s.file == Holds(r) && r.phase == "running" && !s.unread
    requires LiveCore(s, IdOf(r)) && Managed(s, r)
    ensures t.file == Holds(r)
  {
    assert Recorded(s, IdOf(r));
  }

  /** A running record stays in the file as long as its core lives and every load() can read it. */
  lemma {:induction false} RunningRecordStays(trace: Trace, i: nat, j: nat, r: RuntimeState)
    requires Lawful(trace) && i <= j < |trace|
    requires trace[i].state.file == Holds(r) && r.phase == "running"
    requires r.startTicks < trace[i].state.clock && !trace[i].state.unread
    requires trace[j].state.failedLoads == trace[i].state.failedLoads
    requires LiveCore(trace[j].state, IdOf(r)) && Managed(trace[j].state, r)
    ensures trace[j].state.file == Holds(r)
  {
    if i < j {
      var s, t := trace[j - 1].state, trace[j].state;
      assert StepAt(trace, j);
      RunsGrow(trace, i, j - 1);
      CountersGrow(s, trace[j].event, t);
      RunsAreSafe(trace, j - 1);
      LiveBefore(s, trace[j].event, t, IdOf(r));
      RunningRecordStays(trace, i, j - 1, r);
      RunningRecordSurvives(s, trace[j].event, t, r);
    }
  }

  /** The core recorded in `returned` is alive at step j, and no load() of a command failed up to step i. */
  ghost predicate StillUp(trace: Trace, returned: State, i: nat, j: nat)
    requires i <= j < |trace| && returned.file.Holds?
  {
    && LiveCore(trace[j].state, IdOf(returned.file.record)) && Managed(trace[j].state, returned.file.record)
    && !Missed(returned, trace[i].state)
  }

  /**
   While the core of a successful start lives, status() reports what start() returned, whatever commands
   and crashes came in between, and also beside a running command, unless a load() failed since. `returned`
   is the state when start() returned, after step `at`.
   */
  method StatusAfterStart(w: World, preparation: Result<Plan>, requests: seq<Request>, idle: ProxyStatus)
    returns (started: StartResult, later: ProxyStatus, ghost returned: State, ghost at: nat)
    requires w.Valid() && Settled(w.now) && !idle.running
    requires preparation.Success? ==> Recordable(preparation.value)
    requires forall i | 0 <= i < |requests| :: Sensible(requests[i])
    modifies w
    ensures w.Valid()
    ensures |old(w.trace)| - 1 <= at < |w.trace| && w.trace[at].state == returned
    ensures started.Started? ==>
      && returned.file.Holds? && started.status == StatusFromState(returned.file.record)
      && var r := returned.file.record;
         && (LiveCore(w.now, IdOf(r)) && Managed(w.now, r) && !Missed(returned, w.now) ==> later == started.status)
         && (forall i, j | at <= i <= j < |w.trace| && StillUp(w.trace, returned, i, j) ::
               StatusSeen(w.trace, i, j, true, idle) == started.status)
  {
    started := Start(w, preparation);
    returned := w.now;
    at := |w.trace| - 1;
    Run(w, requests);
    ghost var asked := |w.trace| - 1;
    later := Status(w, idle);
    RunsGrow(w.trace, at, asked);
    RunsGrow(w.trace, asked, |w.trace| - 1);
    if started.Started? {
      var r := returned.file.record;
      if LiveCore(w.now, IdOf(r)) && Managed(w.now, r) && !Missed(returned, w.now) {
        RunningRecordStays(w.trace, at, |w.trace| - 1, r);
      }
      forall i, j | at <= i <= j < |w.trace| && StillUp(w.trace, returned, i, j)
        ensures StatusSeen(w.trace, i, j, true, idle) == started.status
      {
        StatusAtAnyStep(w.trace, at, i, j, r, idle);
      }
    }
  }

  // ----- status() beside a running start() or stop()

  /**
   What an unlocked status() reports that loads the file at step i of a run and looks for the process at
   step j, with any steps of the commands in between. `readable` says whether its own load() succeeds.
   */
  function StatusSeen(trace: Trace, i: nat, j: nat, readable: bool, idle: ProxyStatus): ProxyStatus
    requires i <= j < |trace|
  {
    var file := trace[i].state.file;
    if readable && file.Holds? && file.record.phase == "running" && Managed(trace[j].state, file.record)
    then StatusFromState(file.record) else idle
  }

  lemma {:induction false} LivedBefore(trace: Trace, i: nat, j: nat, r: RuntimeState)
    requires Lawful(trace) && i <= j < |trace| && r.startTicks < trace[i].state.clock
    requires LiveCore(trace[j].state, IdOf(r)) && Managed(trace[j].state, r)
    ensures LiveCore(trace[i].state, IdOf(r)) && Managed(trace[i].state, r)
  {
    if i < j {
      assert StepAt(trace, j);
      RunsGrow(trace, i, j - 1);
      RunsAreSafe(trace, j - 1);
      LiveBefore(trace[j - 1].state, trace[j].event, trace[j].state, IdOf(r));
      LivedBefore(trace, i, j - 1, r);
    }
  }

  /**
   Once the running record r is in the file, every status() reports it whose own load() succeeds and that finds
   its core alive, at whatever steps of later commands it runs, unless a load() of theirs failed before.
   */
  lemma StatusAtAnyStep(trace: Trace, n: nat, i: nat, j: nat, r: RuntimeState, idle: ProxyStatus)
    requires Lawful(trace) && n <= i <= j < |trace|
    requires trace[n].state.file == Holds(r) && r.phase == "running"
    requires r.startTicks < trace[n].state.clock && !trace[n].state.unread
    requires trace[i].state.failedLoads == trace[n].state.failedLoads
    requires LiveCore(trace[j].state, IdOf(r)) && Managed(trace[j].state, r)
    ensures StatusSeen(trace, i, j, true, idle) == StatusFromState(r)
  {
    RunsGrow(trace, n, i);
    LivedBefore(trace, i, j, r);
    RunningRecordStays(trace, n, i, r);
  }

  /** And whatever core it reports, TUN was seen for it before. */
  lemma ReportedCoreHadTun(trace: Trace, i: nat, j: nat, readable: bool, idle: ProxyStatus)
    requires Lawful(trace) && i <= j < |trace| && !idle.running && StatusSeen(trace, i, j, readable, idle).running
    requires trace[0].state.tunSeen == {} && !trace[0].state.file.Holds?
    ensures trace[i].state.file.Holds? && Managed(trace[j].state, trace[i].state.file.record)
    ensures exists k | 0 < k < i :: trace[k].event == TunObserved(IdOf(trace[i].state.file.record))
  {
    var r := trace[i].state.file.record;
    WhereRecordWasSaved(trace, i, r);
    var s :| 0 < s <= i && trace[s].event == Saved(r);
    RunningOnlyAfterTun(trace, s, r);
  }

  // ----- when the state file forgets a live core

  /** Step j clears the file while it records the live core `id`. */
  predicate ForgetsAt(trace: Trace, j: nat, id: Id)
    requires 0 < j < |trace|
  {
    trace[j].event.Cleared? && LiveCore(trace[j - 1].state, id) && Recorded(trace[j - 1].state, id)
  }

  lemma {:induction false} WhenForgotten(trace: Trace, i: nat, id: Id)
    requires Lawful(trace) && i < |trace| && trace[0].state.forgotten == {}
    ensures id in trace[i].state.forgotten <==> exists j | 0 < j <= i :: ForgetsAt(trace, j, id)
  {
    if i > 0 {
      WhenForgotten(trace, i - 1, id);
      var s, t := trace[i - 1].state, trace[i].state;
      assert StepAt(trace, i);
      assert id in t.forgotten <==> id in s.forgotten || ForgetsAt(trace, i, id) by {
        ForgottenByClear(s, trace[i].event, t, id);
      }
    }
  }

  lemma ForgottenByClear(s: State, e: Event, t: State, id: Id)
    requires Effect(s, e, t)
    ensures id in t.forgotten <==> id in s.forgotten || (e.Cleared? && LiveCore(s, id) && Recorded(s, id))
  {
    if e.Cleared? {
      assert t == AfterClear(s);
    } else {
      KeptForgotten(s, e, t);
    }
  }

  lemma KeptForgotten(s: State, e: Event, t: State)
    requires Effect(s, e, t) && !e.Cleared?
    ensures t.forgotten == s.forgotten
  {
  }

  /**
   At every moment of every run, a live core whose record was saved is in the file exactly if no clear()
   has removed it from there.
   */
  lemma SavedCoreStaysRecorded(trace: Trace, i: nat, id: Id)
    requires Lawful(trace) && i < |trace| && trace[0].state.forgotten == {}
    requires LiveCore(trace[i].state, id) && id in trace[i].state.saved
    ensures Recorded(trace[i].state, id) <==> !exists j | 0 < j <= i :: ForgetsAt(trace, j, id)
  {
    RunsAreSafe(trace, i);
    WhenForgotten(trace, i, id);
  }

  /** load() failed at step k to read the record of the core `id`, which is still there at step i. */
  ghost predicate UnreadSince(trace: Trace, k: nat, i: nat, id: Id)
    requires 0 < k <= i < |trace|
  {
    trace[k].event == LoadFailed && forall m | k <= m <= i :: LiveCore(trace[m].state, id) && Recorded(trace[m].state, id)
  }

  lemma UnreadBefore(s: State, e: Event, t: State, id: Id)
    requires Safe(s) && Allowed(s, e, t) && t.unread && LiveCore(t, id) && Recorded(t, id) && e != LoadFailed
    ensures s.unread && t.file == s.file && LiveCore(s, id) && Recorded(s, id)
  {
    if e.Environment? {
      EnvKeepsCores(s, t);
    } else if !e.Spawned? && !e.Reaped? {
      ProcessesStay(s, e, t);
    }
  }

  lemma {:induction false} WhenUnread(trace: Trace, i: nat, id: Id)
    requires Lawful(trace) && i < |trace| && !trace[0].state.unread
    requires trace[i].state.unread && LiveCore(trace[i].state, id) && Recorded(trace[i].state, id)
    ensures exists k | 0 < k <= i :: UnreadSince(trace, k, i, id)
  {
    assert i > 0;
    assert StepAt(trace, i);
    if trace[i].event == LoadFailed {
      assert UnreadSince(trace, i, i, id);
    } else {
      RunsAreSafe(trace, i - 1);
      UnreadBefore(trace[i - 1].state, trace[i].event, trace[i].state, id);
      WhenUnread(trace, i - 1, id);
      var k :| 0 < k <= i - 1 && UnreadSince(trace, k, i - 1, id);
      assert UnreadSince(trace, k, i, id);
    }
  }

  /** clear() removes the record of a live core only after a load() that failed to read that very record. */
  lemma ForgetsOnlyUnread(trace: Trace, j: nat, id: Id) returns (k: nat)
    requires Lawful(trace) && 0 < j < |trace| && !trace[0].state.unread && ForgetsAt(trace, j, id)
    ensures 0 < k < j && UnreadSince(trace, k, j - 1, id)
  {
    assert StepAt(trace, j);
    WhenUnread(trace, j - 1, id);
    k :| 0 < k <= j - 1 && UnreadSince(trace, k, j - 1, id);
  }

  /** So where every load() reads what is there, no clear() forgets a core: when the file is removed, no saved core lives. */
  lemma ClearForgetsNoCore(trace: Trace, i: nat, id: Id)
    requires Lawful(trace) && 0 < i < |trace| && trace[i].event.Cleared?
    requires trace[0].state.forgotten == {} && !trace[0].state.unread
    requires id in trace[i].state.saved && forall k | 0 < k < i :: trace[k].event != LoadFailed
    ensures !LiveCore(trace[i].state, id)
  {
    if LiveCore(trace[i].state, id) {
      SavedCoreStaysRecorded(trace, i, id);
      assert StepAt(trace, i);
      var j :| 0 < j <= i && ForgetsAt(trace, j, id);
      var _ := ForgetsOnlyUnread(trace, j, id);
    }
  }

  function EventsOf(trace: Trace): seq<Event> {
    seq(|trace|, i requires 0 <= i < |trace| => trace[i].event)
  }

  lemma LongerRun(trace: Trace, e: Event, t: State) returns (longer: Trace)
    requires Lawful(trace) && Allowed(trace[|trace| - 1].state, e, t)
    ensures longer == trace + [Moment(e, t)] && Lawful(longer) && EventsOf(longer) == EventsOf(trace) + [e]
  {
    LongerIsLawful(trace, e, t);
    longer := trace + [Moment(e, t)];
  }

  /** And any run that ends with a live recorded core can go on to forget it. */
  lemma FailedLoadForgets(trace: Trace, id: Id) returns (longer: Trace)
    requires Lawful(trace)
    requires LiveCore(trace[|trace| - 1].state, id) && Recorded(trace[|trace| - 1].state, id)
    ensures Lawful(longer) && |longer| == |trace| + 2 && trace <= longer
    ensures EventsOf(longer) == EventsOf(trace) + [LoadFailed, Cleared]
    ensures ForgetsAt(longer, |trace| + 1, id)
    ensures longer[|trace| + 1].state == AfterClear(AfterLoad(trace[|trace| - 1].state, true))
  {
    var s := trace[|trace| - 1].state;
    var missed := AfterLoad(s, true);
    longer := LongerRun(trace, LoadFailed, missed);
    longer := LongerRun(longer, Cleared, AfterClear(missed));
  }

  // ----- at most one core

  /** Step i leaves a live core without a record: a failed cleanup, or a crash between spawn and save. */
  ghost predicate LeavesCore(trace: Trace, i: nat)
    requires 0 < i < |trace|
  {
    (trace[i].event.GaveUp? || trace[i].event.Crashed?) && PendingCore(trace[i - 1].state) != {}
  }

  /** Step i clears the record of a live core. */
  ghost predicate ForgetsCore(trace: Trace, i: nat)
    requires 0 < i < |trace|
  {
    trace[i].event.Cleared? && RecordedCore(trace[i - 1].state) != {}
  }

  ghost predicate LosesCore(trace: Trace, i: nat)
    requires 0 < i < |trace|
  {
    LeavesCore(trace, i) || ForgetsCore(trace, i)
  }

  lemma LossesAreLosses(s: State, e: Event, t: State)
    requires Effect(s, e, t)
    requires !((e.GaveUp? || e.Crashed?) && PendingCore(s) != {}) && !(e.Cleared? && RecordedCore(s) != {})
    ensures t.abandoned == s.abandoned && t.forgotten == s.forgotten
  {
    if e.Cleared? {
      assert t == AfterClear(s);
    } else if e.Crashed? {
      assert t == AfterCrash(s);
    }
  }

  lemma {:induction false} NothingLost(trace: Trace, i: nat)
    requires Lawful(trace) && i < |trace| && trace[0].state.abandoned == {} && trace[0].state.forgotten == {}
    requires forall j | 0 < j <= i :: !LosesCore(trace, j)
    ensures trace[i].state.abandoned == {} && trace[i].state.forgotten == {}
  {
    if i > 0 {
      NothingLost(trace, i - 1);
      assert StepAt(trace, i);
      assert !LosesCore(trace, i);
      LossesAreLosses(trace[i - 1].state, trace[i].event, trace[i].state);
    }
  }

  /** Any two live cores are the same, unless some earlier step lost one. */
  lemma AtMostOneCore(trace: Trace, i: nat, a: Id, b: Id)
    requires Lawful(trace) && i < |trace| && trace[0].state.abandoned == {} && trace[0].state.forgotten == {}
    requires LiveCore(trace[i].state, a) && LiveCore(trace[i].state, b)
    ensures a == b || exists j | 0 < j <= i :: LosesCore(trace, j)
  {
    if forall j | 0 < j <= i :: !LosesCore(trace, j) {
      NothingLost(trace, i);
      RunsAreSafe(trace, i);
      OneCore(trace[i].state, a, b);
    }
  }

  /** What start() does from its first look at TUN to its first spawn. */
  function LookAndSpawn(id: Id, executable: string): seq<Event> {
    [Environment, TunAbsent(false), ConfigChecked, Spawned(id, executable)]
  }

  /** What start() does up to its first spawn when it finds no live recorded core, moves that change nothing apart. */
  function StartEvents(id: Id, executable: string): seq<Event> { [Loaded, Cleared] + LookAndSpawn(id, executable) }

  /** The same when it cannot read the record that is there. */
  function BlindStartEvents(id: Id, executable: string): seq<Event> {
    [LoadFailed, Cleared] + LookAndSpawn(id, executable)
  }

  lemma Quiet(s: State)
    requires Safe(s)
    ensures EnvStep(s, s.(tun := false))
  {
  }

  lemma ReadyToSpawn(s: State, t: State)
    requires OnlyLost(s) && t == s.(tun := false, tunClear := true, checked := true)
    ensures OnlyLost(t)
  {
    assert forall id :: LiveCore(t, id) ==> LiveCore(s, id);
  }

  lemma LooksAndChecks(trace: Trace) returns (longer: Trace)
    requires Lawful(trace)
    ensures Lawful(longer) && trace <= longer
    ensures EventsOf(longer) == EventsOf(trace) + [Environment, TunAbsent(false), ConfigChecked]
    ensures longer[|longer| - 1].state == trace[|trace| - 1].state.(tun := false, tunClear := true, checked := true)
  {
    var s := trace[|trace| - 1].state;
    RunsAreSafe(trace, |trace| - 1);
    Quiet(s);
    longer := LongerRun(trace, Environment, s.(tun := false));
    longer := LongerRun(longer, TunAbsent(false), s.(tun := false, tunClear := true));
    longer := LongerRun(longer, ConfigChecked, s.(tun := false, tunClear := true, checked := true));
  }

  /** With no file and only lost cores, start() spawns another one. */
  lemma SpawnsNext(trace: Trace, pid: int, executable: string) returns (longer: Trace, id: Id)
    requires Lawful(trace)
    requires var s := trace[|trace| - 1].state; OnlyLost(s) && s.file == Absent && 0 < pid && pid !in s.processes
    ensures Lawful(longer) && trace <= longer
    ensures id == Id(pid, trace[|trace| - 1].state.clock)
    ensures EventsOf(longer) == EventsOf(trace) + LookAndSpawn(id, executable)
    ensures longer[|longer| - 1].state == AfterSpawn(trace[|trace| - 1].state.(tun := false), id, executable)
  {
    var s := trace[|trace| - 1].state;
    var ready := s.(tun := false, tunClear := true, checked := true);
    longer := LooksAndChecks(trace);
    id := Id(pid, s.clock);
    ReadyToSpawn(s, ready);
    MaySpawn(ready, id, executable);
    longer := LongerRun(longer, Spawned(id, executable), AfterSpawn(ready, id, executable));
  }

  lemma MaySpawn(s: State, id: Id, executable: string)
    requires OnlyLost(s) && s.file == Absent && s.tunClear && s.checked
    requires 0 < id.pid && id.pid !in s.processes && id.ticks == s.clock
    ensures Allowed(s, Spawned(id, executable), AfterSpawn(s, id, executable))
  {
  }

  lemma StillOnlyLost(s: State)
    requires OnlyLost(s)
    ensures OnlyLost(s.(file := Absent, unread := false))
  {
    var t := s.(file := Absent, unread := false);
    forall id | LiveCore(t, id)
      ensures Lost(t, id)
    {
      assert LiveCore(s, id);
    }
  }

  lemma ClearsStale(trace: Trace) returns (longer: Trace)
    requires Lawful(trace) && NoneRecorded(trace[|trace| - 1].state)
    ensures Lawful(longer) && trace <= longer && EventsOf(longer) == EventsOf(trace) + [Loaded, Cleared]
    ensures longer[|longer| - 1].state == trace[|trace| - 1].state.(file := Absent, unread := false)
  {
    var s := trace[|trace| - 1].state;
    assert RecordedCore(s) == {};
    longer := LongerRun(trace, Loaded, AfterLoad(s, false));
    longer := LongerRun(longer, Cleared, s.(file := Absent, unread := false));
  }

  /** A start() that finds only lost cores spawns another one. */
  lemma StartSpawns(trace: Trace, pid: int, executable: string) returns (longer: Trace, id: Id)
    requires Lawful(trace)
    requires var s := trace[|trace| - 1].state; OnlyLost(s) && NoneRecorded(s) && 0 < pid && pid !in s.processes
    ensures Lawful(longer) && trace <= longer
    ensures id == Id(pid, trace[|trace| - 1].state.clock)
    ensures EventsOf(longer) == EventsOf(trace) + StartEvents(id, executable)
    ensures longer[|longer| - 1].state ==
      AfterSpawn(trace[|trace| - 1].state.(file := Absent, unread := false, tun := false), id, executable)
  {
    var s := trace[|trace| - 1].state;
    longer := ClearsStale(trace);
    StillOnlyLost(s);
    longer, id := SpawnsNext(longer, pid, executable);
  }

  /** The condition is needed: once a live core was lost, the next start can bring up a second one. */
  lemma LostCoreAllowsTwo(trace: Trace, lost: Id, pid: int, executable: string) returns (longer: Trace, second: Id)
    requires Lawful(trace)
    requires var s := trace[|trace| - 1].state;
      LiveCore(s, lost) && OnlyLost(s) && NoneRecorded(s) && 0 < pid && pid !in s.processes
    ensures Lawful(longer) && trace <= longer && second != lost
    ensures EventsOf(longer) == EventsOf(trace) + StartEvents(second, executable)
    ensures LiveCore(longer[|longer| - 1].state, lost) && LiveCore(longer[|longer| - 1].state, second)
  {
    longer, second := StartSpawns(trace, pid, executable);
  }

  lemma ForgottenIsLost(s: State)
    requires Safe(s) && Settled(s)
    ensures OnlyLost(AfterClear(AfterLoad(s, true)))
  {
    var t := AfterClear(AfterLoad(s, true));
    forall id | LiveCore(t, id)
      ensures Lost(t, id)
    {
      assert LiveCore(s, id);
    }
  }

  /** One failed load() is enough: any settled run with a live recorded core can go on to two live cores. */
  lemma FailedLoadAllowsTwo(trace: Trace, first: Id, pid: int, executable: string) returns (longer: Trace, second: Id)
    requires Lawful(trace)
    requires var s := trace[|trace| - 1].state;
      LiveCore(s, first) && Recorded(s, first) && Settled(s) && 0 < pid && pid !in s.processes
    ensures Lawful(longer) && trace <= longer && second != first
    ensures EventsOf(longer) == EventsOf(trace) + BlindStartEvents(second, executable)
    ensures LiveCore(longer[|longer| - 1].state, first) && LiveCore(longer[|longer| - 1].state, second)
    ensures longer[|longer| - 1].state.abandoned == trace[|trace| - 1].state.abandoned
  {
    var s := trace[|trace| - 1].state;
    RunsAreSafe(trace, |trace| - 1);
    var forgot := FailedLoadForgets(trace, first);
    ForgottenIsLost(s);
    longer, second := SpawnsNext(forgot, pid, executable);
  }

  const BOOT := State(map[], {}, 1, false, Absent, None, {}, {}, {}, false, 0, {}, map[], 0, 0, false, false)

  lemma FirstStart() returns (trace: Trace, a: Id)
    ensures Lawful(trace) && trace[0].state == BOOT && a == Id(100, 1)
    ensures EventsOf(trace) == [Environment] + StartEvents(a, "sing-box")
    ensures trace[|trace| - 1].state == AfterSpawn(BOOT, a, "sing-box")
  {
    trace := [Moment(Environment, BOOT)];
    assert EventsOf(trace) == [Environment];
    trace, a := StartSpawns(trace, 100, "sing-box");
  }

  /** Concretely: start() spawns pid 100, crashes before the record is saved, and the next start() spawns pid 101. */
  lemma CrashBeforeSaveAllowsTwo() returns (trace: Trace, a: Id, b: Id)
    ensures Lawful(trace) && trace[0].state == BOOT
    ensures EventsOf(trace) ==
      [Environment] + StartEvents(a, "sing-box") + [Crashed] + StartEvents(b, "sing-box")
    ensures a != b && LiveCore(trace[|trace| - 1].state, a) && LiveCore(trace[|trace| - 1].state, b)
  {
    trace, a := FirstStart();
    trace := LongerRun(trace, Crashed, AfterCrash(AfterSpawn(BOOT, a, "sing-box")));
    trace, b := LostCoreAllowsTwo(trace, a, 101, "sing-box");
  }

  /** A record of the core that FirstStart spawns. */
  function FirstRecord(id: Id): (r: RuntimeState)
    requires 0 < id.pid < 1000 && 0 < id.ticks < 1000
    ensures Storable(r)
  {
    RuntimeState(id.pid, id.ticks, "sing-box", "1", "socks5://h:1", "auto-redirect", "", [], "starting")
  }

  lemma SaveNext(trace: Trace, r: RuntimeState) returns (longer: Trace)
    requires Lawful(trace) && Fresh(trace[|trace| - 1].state, r) && Storable(r) && r.phase == "starting"
    ensures longer == trace + [Moment(Saved(r), AfterSave(trace[|trace| - 1].state, r))] && Lawful(longer)
    ensures EventsOf(longer) == EventsOf(trace) + [Saved(r)]
  {
    RunsAreSafe(trace, |trace| - 1);
    FreshMaySave(trace[|trace| - 1].state, r);
    longer := LongerRun(trace, Saved(r), AfterSave(trace[|trace| - 1].state, r));
  }

  /** A start() that crashes right after its provisional save leaves the live core recorded. */
  lemma SaveThenCrash(trace: Trace, r: RuntimeState) returns (longer: Trace)
    requires Lawful(trace) && Fresh(trace[|trace| - 1].state, r) && Storable(r) && r.phase == "starting"
    requires LiveCore(trace[|trace| - 1].state, IdOf(r))
    ensures Lawful(longer) && trace <= longer
    ensures EventsOf(longer) == EventsOf(trace) + [Saved(r), Crashed]
    ensures var t := longer[|longer| - 1].state;
      && LiveCore(t, IdOf(r)) && Recorded(t, IdOf(r)) && Settled(t)
      && t.abandoned == trace[|trace| - 1].state.abandoned && t.processes == trace[|trace| - 1].state.processes
  {
    longer := SaveNext(trace, r);
    var saved := AfterSave(trace[|trace| - 1].state, r);
    MayCrash(saved);
    longer := LongerRun(longer, Crashed, AfterCrash(saved));
    RecordedAfterSave(trace[|trace| - 1].state, r);
  }

  lemma FreshMaySave(s: State, r: RuntimeState)
    requires Safe(s) && Fresh(s, r) && Storable(r) && r.phase == "starting"
    ensures Allowed(s, Saved(r), AfterSave(s, r))
  {
  }

  lemma MayCrash(s: State)
    ensures Allowed(s, Crashed, AfterCrash(s))
  {
  }

  lemma RecordedAfterSave(s: State, r: RuntimeState)
    requires Fresh(s, r) && Storable(r) && LiveCore(s, IdOf(r))
    ensures var t := AfterCrash(AfterSave(s, r));
      LiveCore(t, IdOf(r)) && Recorded(t, IdOf(r)) && Settled(t) && t.abandoned == s.abandoned
  {
  }

  lemma FirstIsFresh(id: Id)
    requires id == Id(100, 1)
    ensures Fresh(AfterSpawn(BOOT, id, "sing-box"), FirstRecord(id)) && LiveCore(AfterSpawn(BOOT, id, "sing-box"), id)
  {
  }

  lemma FirstCrash() returns (trace: Trace, a: Id)
    ensures Lawful(trace) && trace[0].state == BOOT && a == Id(100, 1)
    ensures EventsOf(trace) == [Environment] + StartEvents(a, "sing-box") + [Saved(FirstRecord(a)), Crashed]
    ensures var s := trace[|trace| - 1].state;
      LiveCore(s, a) && Recorded(s, a) && Settled(s) && 101 !in s.processes && s.abandoned == {}
  {
    trace, a := FirstStart();
    FirstIsFresh(a);
    trace := SaveThenCrash(trace, FirstRecord(a));
  }

  /**
   Concretely: start() spawns pid 100 and crashes after saving its record, the next start() cannot read
   that record and spawns pid 101. Nothing leaves a core without a record before the failed load().
   */
  lemma FailedReadAllowsTwo() returns (trace: Trace, a: Id, b: Id)
    ensures Lawful(trace) && trace[0].state == BOOT && a == Id(100, 1)
    ensures EventsOf(trace) ==
      [Environment] + StartEvents(a, "sing-box") + [Saved(FirstRecord(a)), Crashed] + BlindStartEvents(b, "sing-box")
    ensures a != b && LiveCore(trace[|trace| - 1].state, a) && LiveCore(trace[|trace| - 1].state, b)
    ensures trace[|trace| - 1].state.abandoned == {}
  {
    trace, a := FirstCrash();
    trace, b := FailedLoadAllowsTwo(trace, a, 101, "sing-box");
  }

  // ----- when a core is spawned

  /** The look of step j found no TUN, or failed, and between j and i no core was spawned and none was sent SIGTERM. */
  ghost predicate TunAbsentBefore(trace: Trace, j: nat, i: nat)
    requires 0 < j < i <= |trace|
  {
    && trace[j].event.TunAbsent? && (trace[j].event.failed || !trace[j].state.tun)
    && forall k | j < k < i :: !trace[k].event.Spawned? && !trace[k].event.Terminated?
  }

  lemma ClearBefore(s: State, e: Event, t: State)
    requires Effect(s, e, t) && t.tunClear && !e.TunAbsent?
    ensures s.tunClear && !e.Spawned? && !e.Terminated?
  {
  }

  lemma {:induction false} WhereTunWasAbsent(trace: Trace, i: nat)
    requires Lawful(trace) && 0 < i <= |trace| && trace[i - 1].state.tunClear && !trace[0].state.tunClear
    ensures exists j | 0 < j < i :: TunAbsentBefore(trace, j, i)
  {
    assert i > 1;
    assert StepAt(trace, i - 1);
    if trace[i - 1].event.TunAbsent? {
      assert TunAbsentBefore(trace, i - 1, i);
    } else {
      ClearBefore(trace[i - 2].state, trace[i - 1].event, trace[i - 1].state);
      WhereTunWasAbsent(trace, i - 1);
      var j :| 0 < j < i - 1 && TunAbsentBefore(trace, j, i - 1);
      assert TunAbsentBefore(trace, j, i);
    }
  }

  /** The core accepted the configuration at step j, and between j and i nobody tried to spawn one or crashed. */
  ghost predicate CheckedBefore(trace: Trace, j: nat, i: nat)
    requires 0 < j < i <= |trace|
  {
    && trace[j].event.ConfigChecked?
    && forall k | j < k < i :: !trace[k].event.Spawned? && !trace[k].event.SpawnFailed? && !trace[k].event.Crashed?
  }

  lemma StillChecked(s: State, e: Event, t: State)
    requires Effect(s, e, t) && t.checked && !e.ConfigChecked?
    ensures s.checked && !e.Spawned? && !e.SpawnFailed? && !e.Crashed?
  {
  }

  lemma {:induction false} WhereConfigWasChecked(trace: Trace, i: nat)
    requires Lawful(trace) && 0 < i <= |trace| && trace[i - 1].state.checked && !trace[0].state.checked
    ensures exists j | 0 < j < i :: CheckedBefore(trace, j, i)
  {
    assert i > 1;
    assert StepAt(trace, i - 1);
    if trace[i - 1].event.ConfigChecked? {
      assert CheckedBefore(trace, i - 1, i);
    } else {
      StillChecked(trace[i - 2].state, trace[i - 1].event, trace[i - 1].state);
      WhereConfigWasChecked(trace, i - 1);
      var j :| 0 < j < i - 1 && CheckedBefore(trace, j, i - 1);
      assert CheckedBefore(trace, j, i);
    }
  }

  /**
   A core is spawned only after a look that found no TUN, later than any earlier core was spawned or
   signalled, and after an accepted configuration that no other spawn has used.
   */
  lemma SpawnOnlyWithoutTun(trace: Trace, i: nat)
    requires Lawful(trace) && 0 < i < |trace| && trace[i].event.Spawned?
    requires !trace[0].state.tunClear && !trace[0].state.checked
    ensures exists j | 0 < j < i :: TunAbsentBefore(trace, j, i)
    ensures exists j | 0 < j < i :: CheckedBefore(trace, j, i)
  {
    MayStep(trace, i);
    WhereTunWasAbsent(trace, i);
    WhereConfigWasChecked(trace, i);
  }

  // ----- the life of the state file

  /** absent -> starting(p) -> running(p) -> absent, where every record but the last step may also be cleared. */
  ghost predicate FileMove(f: StateFile, g: StateFile) {
    || g == f
    || g == Absent
    || (!f.Holds? && g.Holds? && g.record.phase == "starting")
    || (f.Holds? && g.Holds? && f.record.phase == "starting" && g.record == f.record.(phase := "running"))
  }

  lemma FileOnlyMovesAlong(trace: Trace, i: nat)
    requires Lawful(trace) && 0 < i < |trace|
    ensures FileMove(trace[i - 1].state.file, trace[i].state.file)
    ensures trace[i].state.file != trace[i - 1].state.file ==> trace[i].event.Saved? || trace[i].event.Cleared?
  {
    assert StepAt(trace, i);
  }

  /** The file holds no record, or one with a bypass list as a policy yields it. */
  predicate ListOnFile(f: StateFile) { f.Holds? ==> PolicyList(f.record.bypassCidrs) }

  lemma ListIsKept(s: State, e: Event, t: State)
    requires Allowed(s, e, t) && ListOnFile(s.file)
    ensures ListOnFile(t.file)
  {
    if e.Saved? {
      assert Storable(e.r) && t.file == FileAfterSave(e.r);
    }
  }

  lemma {:induction false} ListsArePolicies(trace: Trace, i: nat)
    requires Lawful(trace) && i < |trace| && ListOnFile(trace[0].state.file)
    ensures ListOnFile(trace[i].state.file)
  {
    if i > 0 {
      ListsArePolicies(trace, i - 1);
      assert StepAt(trace, i);
      ListIsKept(trace[i - 1].state, trace[i].event, trace[i].state);
    }
  }

  lemma {:induction false} WhereTunWasSeen(trace: Trace, i: nat, id: Id)
    requires Lawful(trace) && i < |trace| && id in trace[i].state.tunSeen && trace[0].state.tunSeen == {}
    ensures exists j | 0 < j <= i :: trace[j].event == TunObserved(id)
  {
    assert i > 0;
    assert StepAt(trace, i);
    if id in trace[i - 1].state.tunSeen {
      WhereTunWasSeen(trace, i - 1, id);
    } else {
      assert trace[i].event == TunObserved(id);
    }
  }

  lemma {:induction false} WhereRecordWasSaved(trace: Trace, i: nat, r: RuntimeState)
    requires Lawful(trace) && i < |trace| && trace[i].state.file == Holds(r)
    ensures trace[0].state.file == Holds(r) || exists j | 0 < j <= i :: trace[j].event == Saved(r)
  {
    if i > 0 {
      assert StepAt(trace, i);
      if trace[i - 1].state.file == Holds(r) {
        WhereRecordWasSaved(trace, i - 1, r);
      } else {
        assert trace[i].event == Saved(r);
      }
    }
  }

  lemma RunningFollows(s: State, r: RuntimeState)
    requires Rule(s, Saved(r)) && r.phase == "running"
    ensures s.file == Holds(r.(phase := "starting")) && IdOf(r) in s.tunSeen
  {
  }

  lemma MayStep(trace: Trace, i: nat)
    requires Lawful(trace) && 0 < i < |trace|
    ensures Rule(trace[i - 1].state, trace[i].event)
  {
    assert StepAt(trace, i);
  }

  /** "running" is written only after TUN was seen for the same pid and ticks, over the same provisional record. */
  lemma RunningOnlyAfterTun(trace: Trace, i: nat, r: RuntimeState)
    requires Lawful(trace) && 0 < i < |trace| && trace[i].event == Saved(r) && r.phase == "running"
    requires trace[0].state.tunSeen == {}
    ensures exists j | 0 < j < i :: trace[j].event == TunObserved(IdOf(r))
    ensures trace[i - 1].state.file == Holds(r.(phase := "starting"))
    ensures trace[0].state.file == Holds(r.(phase := "starting"))
         || exists j | 0 < j < i :: trace[j].event == Saved(r.(phase := "starting"))
  {
    MayStep(trace, i);
    RunningFollows(trace[i - 1].state, r);
    WhereTunWasSeen(trace, i - 1, IdOf(r));
    WhereRecordWasSaved(trace, i - 1, r.(phase := "starting"));
  }

  // ----- signals

  lemma TermBefore(s: State, e: Event, t: State, id: Id)
    requires Effect(s, e, t) && id in t.termSent && !(e.Terminated? && IdOf(e.r) == id)
    ensures id in s.termSent && s.termSent[id] == t.termSent[id]
  {
  }

  lemma {:induction false} WhereTermWasSent(trace: Trace, i: nat, id: Id)
    requires Lawful(trace) && i < |trace| && id in trace[i].state.termSent && trace[0].state.termSent == map[]
    ensures exists j | 0 < j <= i :: TermSentAt(trace, j, id, trace[i].state.termSent[id])
  {
    assert i > 0;
    assert StepAt(trace, i);
    if trace[i].event.Terminated? && IdOf(trace[i].event.r) == id {
      assert TermSentAt(trace, i, id, trace[i].state.termSent[id]);
    } else {
      TermBefore(trace[i - 1].state, trace[i].event, trace[i].state, id);
      WhereTermWasSent(trace, i - 1, id);
    }
  }

  ghost predicate TermSentAt(trace: Trace, j: nat, id: Id, sleeps: nat)
    requires 0 < j < |trace|
  {
    && trace[j].event.Terminated? && IdOf(trace[j].event.r) == id
    && Managed(trace[j - 1].state, trace[j].event.r) && trace[j - 1].state.sleeps == sleeps
  }

  predicate IsProcess(s: State, id: Id) { id.pid in s.processes && s.processes[id.pid].ticks == id.ticks }

  /** Whatever the manager knows is its own: the cores on record, and the one on its way, which is its child. */
  ghost predicate Owned(s: State) {
    && (forall id | id in s.saved && IsProcess(s, id) :: s.processes[id.pid].core)
    && (s.file.Holds? ==> IdOf(s.file.record) in s.saved)
    && (s.pending.Some? && IsProcess(s, s.pending.value) ==> s.processes[s.pending.value.pid].core)
    && (s.pending.Some? && s.pending.value.pid in s.children ==> IsProcess(s, s.pending.value))
  }

  /** No step but a spawn brings up a process with an earlier start time, and no process changes sides. */
  lemma ProcessBefore(s: State, e: Event, t: State, id: Id)
    requires Sane(s) && Effect(s, e, t) && IsProcess(t, id) && id.ticks < s.clock
    ensures IsProcess(s, id) && s.processes[id.pid].core == t.processes[id.pid].core
  {
    if !e.Environment? && !e.Spawned? && !e.Reaped? {
      ProcessesStay(s, e, t);
    }
  }

  lemma EnvKeepsOwned(s: State, t: State)
    requires Sane(s) && EnvStep(s, t) && Owned(s)
    ensures Owned(t)
  {
    forall id | id in t.saved && IsProcess(t, id)
      ensures t.processes[id.pid].core
    {
      ProcessBefore(s, Environment, t, id);
    }
    if t.pending.Some? && IsProcess(t, t.pending.value) {
      ProcessBefore(s, Environment, t, t.pending.value);
    }
    if t.pending.Some? && t.pending.value.pid in t.children {
      assert Continues(s, t, t.pending.value.pid);
    }
  }

  lemma SpawnKeepsOwned(s: State, id: Id, executable: string)
    requires Sane(s) && Owned(s) && id.pid !in s.processes && id.ticks == s.clock
    ensures Owned(AfterSpawn(s, id, executable))
  {
    var t := AfterSpawn(s, id, executable);
    assert forall x | x in t.saved && IsProcess(t, x) :: IsProcess(s, x);
  }

  lemma SaveKeepsOwned(s: State, r: RuntimeState)
    requires Sane(s) && Owned(s) && Rule(s, Saved(r))
    ensures Owned(AfterSave(s, r))
  {
    var t := AfterSave(s, r);
    assert t.file == Holds(r);
    assert forall id | IsProcess(t, id) :: IsProcess(s, id);
  }

  lemma ReapKeepsOwned(s: State, pid: int, t: State)
    requires Sane(s) && Owned(s) && Effect(s, Reaped(pid), t)
    ensures Owned(t)
  {
    assert forall id | IsProcess(t, id) :: IsProcess(s, id);
  }

  /** What the other steps may change of all this: the file goes, the children go, nobody is on the way any more. */
  predicate OnlyLess(s: State, t: State) {
    && t.processes == s.processes && t.children <= s.children && t.saved == s.saved
    && (t.file == s.file || t.file == Absent) && (t.pending == s.pending || t.pending == None)
  }

  lemma OtherStepsOnlyLess(s: State, e: Event, t: State)
    requires Effect(s, e, t) && !e.Environment? && !e.Spawned? && !e.Saved? && !e.Reaped?
    ensures OnlyLess(s, t)
  {
  }

  lemma LessKeepsOwned(s: State, t: State)
    requires Owned(s) && OnlyLess(s, t)
    ensures Owned(t)
  {
    assert forall id :: IsProcess(t, id) <==> IsProcess(s, id);
  }

  lemma StepKeepsOwned(s: State, e: Event, t: State)
    requires Sane(s) && Owned(s) && Allowed(s, e, t)
    ensures Owned(t)
  {
    if e.Environment? {
      EnvKeepsOwned(s, t);
    } else if e.Spawned? {
      SpawnKeepsOwned(s, e.id, e.executable);
    } else if e.Saved? {
      SaveKeepsOwned(s, e.r);
    } else if e.Reaped? {
      ReapKeepsOwned(s, e.pid, t);
    } else {
      OtherStepsOnlyLess(s, e, t);
      LessKeepsOwned(s, t);
    }
  }

  lemma {:induction false} RunsKeepOwned(trace: Trace, i: nat)
    requires Lawful(trace) && i < |trace| && Owned(trace[0].state)
    ensures Owned(trace[i].state)
  {
    if i > 0 {
      RunsKeepOwned(trace, i - 1);
      RunsAreSafe(trace, i - 1);
      assert StepAt(trace, i);
      StepKeepsOwned(trace[i - 1].state, trace[i].event, trace[i].state);
    }
  }

  function TargetOf(e: Event): int
    requires IsSignal(e)
  {
    match e
    case Terminated(r) => r.pid
    case Killed(r) => r.pid
    case ChildKilled(pid) => pid
  }

  /**
   Whom a signal reaches: SIGTERM and SIGKILL of terminateCore the live process of the record, which is the
   record in the file or that of the core just spawned; the SIGKILL of a child without readable start ticks
   that very child. All of them are cores the manager spawned.
   */
  ghost predicate ReachesItsCore(s: State, e: Event)
    requires IsSignal(e)
  {
    && TargetOf(e) in s.processes && s.processes[TargetOf(e)].core
    && match e
       case Terminated(r) => Managed(s, r) && Named(s, r)
       case Killed(r) => Managed(s, r) && Named(s, r)
       case ChildKilled(pid) => pid in s.children && s.pending == Some(Id(pid, s.processes[pid].ticks))
  }

  lemma NamedIsCore(s: State, r: RuntimeState)
    requires Owned(s) && Managed(s, r) && Named(s, r)
    ensures s.processes[r.pid].core
  {
    assert IsProcess(s, IdOf(r));
  }

  lemma OwnedSignal(s: State, e: Event)
    requires Owned(s) && Rule(s, e) && IsSignal(e)
    ensures ReachesItsCore(s, e)
  {
    if e.Terminated? {
      NamedIsCore(s, e.r);
    } else if e.Killed? {
      NamedIsCore(s, e.r);
    }
  }

  /** In a run that starts with nothing but foreign processes, every signal reaches only a core of its own. */
  lemma SignalsReachOnlyOwnCores(trace: Trace, i: nat)
    requires Lawful(trace) && 0 < i < |trace| && Owned(trace[0].state) && IsSignal(trace[i].event)
    ensures ReachesItsCore(trace[i - 1].state, trace[i].event)
  {
    MayStep(trace, i);
    RunsKeepOwned(trace, i - 1);
    OwnedSignal(trace[i - 1].state, trace[i].event);
  }

  /** After boot that is so. */
  lemma BootIsOwned()
    ensures Owned(BOOT) && Safe(BOOT)
  {
  }

  /** Every SIGKILL of terminateCore comes exactly 50 polls after a SIGTERM to the same process. */
  lemma KillOnlyAfterFullTermBudget(trace: Trace, i: nat)
    requires Lawful(trace) && 0 < i < |trace| && trace[i].event.Killed? && trace[0].state.termSent == map[]
    ensures exists j, n: nat | 0 < j < i && TermSentAt(trace, j, IdOf(trace[i].event.r), n) ::
      trace[i - 1].state.sleeps == n + TERM_POLLS
  {
    assert StepAt(trace, i);
    WhereTermWasSent(trace, i - 1, IdOf(trace[i].event.r));
  }
}
