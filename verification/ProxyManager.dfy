/** The lifecycle of the managed core: start, stop, status, and whole runs of them. */
module ProxyManager {
  import opened Common
  import opened RuntimeStates
  import opened Worlds

  datatype ProxyStatus = ProxyStatus(
    running: bool,
    upstream: string,
    coreVersion: string,
    coreInstalled: bool,
    pid: int,
    routingMode: string,
    upstreamAddress: string,
    bypassCidrs: seq<string>)

  function StatusFromState(r: RuntimeState): ProxyStatus {
    ProxyStatus(true, r.upstream, r.coreVersion, true, r.pid, r.routingMode, r.upstreamAddress, r.bypassCidrs)
  }

  function RoutingModeName(autoRedirect: bool): string {
    if autoRedirect then "auto-redirect" else "tun-route"
  }

  const TUN_REMOVAL_POLLS := 30
  const TUN_READY_POLLS := 80

  /** What the preparation hands to the start loop: configuration, resolved upstream, bypass list, verified core. */
  datatype Plan = Plan(upstream: string, address: string, bypass: seq<string>, executable: string, version: string)

  function RecordOf(plan: Plan, pid: int, ticks: int, autoRedirect: bool): RuntimeState {
    RuntimeState(pid, ticks, plan.executable, plan.version, plan.upstream, RoutingModeName(autoRedirect),
                 plan.address, plan.bypass, "starting")
  }

  /** A plan whose record fits the state file, whatever process it is about. */
  ghost predicate Recordable(plan: Plan) {
    Storable(RecordOf(plan, 1, 1, true))
  }

  datatype StartFailure =
    | PreviousStillRunning
    | StaleRecordKept
    | PreviousTunStays
    | NotPrepared(error: Error)
    | TunExistsOutside
    | ConfigRejected
    | ChildLeftBehind        // the child without start ticks could not be killed
    | ChildWithoutTicks
    | CoreLeftBehind         // its record could not be saved and it could not be stopped
    | RecordNotSaved
    | CoreStillRunning       // it could not be stopped, but its record is in the file
    | WaitFailed
    | ReadyNotSaved
    | RecordKept
    | TunStays
    | NeverReady

  datatype StartResult = Started(status: ProxyStatus) | NotStarted(why: StartFailure)

  datatype TunWait = Ready | CoreExited | TimedOut | WaitBroken

  /** One look at TUN, and a pause if it is still there. */
  method PollAbsence(w: World) returns (present: bool)
    requires w.Valid()
    modifies w
    ensures w.Valid() && Calm(old(w.now), w.now) && old(w.trace) <= w.trace
    ensures w.now.sleeps == old(w.now).sleeps + if present then 1 else 0
  {
    present := w.TunExists();
    if present {
      w.Sleep();
    }
  }

  method AwaitTunRemoval(w: World) returns (removed: bool)
    requires w.Valid()
    modifies w
    ensures w.Valid() && Calm(old(w.now), w.now) && old(w.trace) <= w.trace
    ensures if removed then w.now.tunClear else w.now.tun
    ensures removed <==> LookedAway(w.trace)
    ensures w.now.sleeps <= old(w.now).sleeps + TUN_REMOVAL_POLLS
  {
    PollUntilAbsent(w);
    var present := w.TunExists();
    removed := !present;
  }

  /** The loop of it. */
  method PollUntilAbsent(w: World)
    requires w.Valid()
    modifies w
    ensures w.Valid() && Calm(old(w.now), w.now) && old(w.trace) <= w.trace
    ensures w.now.sleeps <= old(w.now).sleeps + TUN_REMOVAL_POLLS
  {
    var attempt := 0;
    while attempt < TUN_REMOVAL_POLLS
      invariant 0 <= attempt <= TUN_REMOVAL_POLLS
      invariant w.Valid() && Calm(old(w.now), w.now) && old(w.trace) <= w.trace
      invariant w.now.sleeps == old(w.now).sleeps + attempt
    {
      var present := PollAbsence(w);
      if !present {
        return;
      }
      attempt := attempt + 1;
    }
  }

  /** One poll of the core and of TUN; None asks for the next one. */
  method PollTun(w: World, id: Id) returns (outcome: Option<TunWait>)
    requires w.Valid() && id.pid in w.now.children && w.now.processes[id.pid].ticks == id.ticks
    modifies w
    ensures w.Valid() && Fewer(old(w.now), w.now) && old(w.trace) <= w.trace
    ensures outcome == Some(Ready) ==> id in w.now.tunSeen
    ensures outcome == Some(CoreExited) ==> id.pid !in w.now.processes
    ensures outcome != Some(CoreExited) ==> Calm(old(w.now), w.now)
  {
    var waited := w.PollChild(id.pid);
    if waited.Exited? {
      return Some(CoreExited);
    }
    if waited.Broken? {
      return Some(WaitBroken);
    }
    assert Continues(old(w.now), w.now, id.pid);
    var seen := w.ObserveTun(id);
    if seen {
      return Some(Ready);
    }
    w.Sleep();
    outcome := None;
  }

  method WaitForTun(w: World, id: Id) returns (outcome: TunWait)
    requires w.Valid() && id.pid in w.now.children && w.now.processes[id.pid].ticks == id.ticks
    modifies w
    ensures w.Valid() && Fewer(old(w.now), w.now) && old(w.trace) <= w.trace
    ensures outcome.Ready? ==> id in w.now.tunSeen
    ensures outcome.CoreExited? ==> id.pid !in w.now.processes
    ensures !outcome.CoreExited? ==> Calm(old(w.now), w.now)
  {
    var polls :| 0 <= polls <= TUN_READY_POLLS;
    while polls > 0
      invariant w.Valid() && Calm(old(w.now), w.now) && old(w.trace) <= w.trace
    {
      assert Continues(old(w.now), w.now, id.pid);
      var polled := PollTun(w, id);
      if polled.Some? {
        return polled.value;
      }
      polls := polls - 1;
    }
    outcome := TimedOut;
  }

  /** Up to `budget` rounds of waitpid, identity check and sleep. */
  method PollUntilGone(w: World, r: RuntimeState, budget: nat) returns (gone: bool)
    requires w.Valid()
    modifies w
    ensures w.Valid() && Fewer(old(w.now), w.now) && old(w.trace) <= w.trace
    ensures w.now.termSent == old(w.now).termSent
    ensures if gone then !Managed(w.now, r) && w.now.sleeps <= old(w.now).sleeps + budget
            else w.now.sleeps == old(w.now).sleeps + budget
  {
    var attempt := 0;
    while attempt < budget
      invariant attempt <= budget
      invariant w.Valid() && Fewer(old(w.now), w.now) && old(w.trace) <= w.trace
      invariant w.now.termSent == old(w.now).termSent && w.now.sleeps == old(w.now).sleeps + attempt
    {
      gone := PollOnce(w, r);
      if gone {
        return;
      }
      attempt := attempt + 1;
    }
    gone := false;
  }

  /** One round of waitpid, identity check and, if the process is still there, sleep. */
  method PollOnce(w: World, r: RuntimeState) returns (gone: bool)
    requires w.Valid()
    modifies w
    ensures w.Valid() && Fewer(old(w.now), w.now) && old(w.trace) <= w.trace
    ensures w.now.termSent == old(w.now).termSent
    ensures w.now.sleeps == old(w.now).sleeps + if gone then 0 else 1
    ensures gone ==> !Managed(w.now, r)
  {
    var waited := w.PollChild(r.pid);
    if waited.Exited? {
      return true;
    }
    var managed := w.IsManaged(r);
    gone := !managed;
    if managed {
      w.Sleep();
    }
  }

  /** SIGTERM, 50 polls, a fresh check, SIGKILL, 20 polls; success means that the recorded process is gone. */
  method TerminateCore(w: World, r: RuntimeState) returns (ok: bool)
    requires w.Valid() && Named(w.now, r)
    modifies w
    ensures w.Valid() && Fewer(old(w.now), w.now) && old(w.trace) <= w.trace
    ensures ok ==> !Managed(w.now, r)
    ensures w.now.sleeps <= old(w.now).sleeps + TERM_POLLS + KILL_POLLS
  {
    if r.pid <= 0 {
      return true;
    }
    var terminated := w.CheckAndTerminate(r);
    if !terminated.Delivered? {
      return terminated.NotManaged?;
    }
    var gone := PollUntilGone(w, r, TERM_POLLS);
    if gone {
      return true;
    }
    var killed := w.CheckAndKill(r);
    if !killed.Delivered? {
      return killed.NotManaged?;
    }
    ok := PollUntilGone(w, r, KILL_POLLS);
  }

  /** r is the record of the file, and the only core that may be alive besides the lost ones. */
  ghost predicate Tracked(s: State, r: RuntimeState) {
    && s.file == Holds(r) && Settled(s)
    && forall id | LiveCore(s, id) && !Lost(s, id) :: id == IdOf(r) && Managed(s, r)
  }

  /** Its record was saved and TUN was seen for it. */
  predicate Confirmed(s: State, id: Id) { id in s.saved && id in s.tunSeen }

  lemma GoneLeavesOnlyLost(s: State, r: RuntimeState)
    requires Tracked(s, r) && !Managed(s, r)
    ensures OnlyLost(s) && NoneRecorded(s)
  {
  }

  /** Between two commands the record of the file says which core is alive, if any. */
  lemma RecordTells(s: State)
    requires Safe(s) && Settled(s)
    ensures if s.file.Holds? && Managed(s, s.file.record) then Tracked(s, s.file.record)
            else OnlyLost(s) && NoneRecorded(s)
  {
  }

  /** The exits of start() that leave a core alive: without a record, or with its record in the file. */
  predicate LeavesUnrecorded(why: StartFailure) { why.ChildLeftBehind? || why.CoreLeftBehind? }

  predicate LeavesRecorded(why: StartFailure) { why.PreviousStillRunning? || why.CoreStillRunning? }

  /** A live core of an incomplete start is stopped; a running one is left alone, and so is an unread one. */
  method StopIncomplete(w: World) returns (running: Option<RuntimeState>, terminated: bool, ok: bool)
    requires w.Valid() && Settled(w.now)
    modifies w
    ensures w.Valid() && old(w.trace) <= w.trace && Settled(w.now)
    ensures w.now.abandoned == old(w.now).abandoned && w.now.attempts == old(w.now).attempts
    ensures w.now.file == old(w.now).file && w.now.forgotten == old(w.now).forgotten
    ensures RecordedCore(w.now) <= RecordedCore(old(w.now))
    ensures running.Some? ==> ok && running.value.phase == "running" && Tracked(w.now, running.value) && Managed(w.now, running.value)
    ensures ok && running.None? && !w.now.unread ==> OnlyLost(w.now) && NoneRecorded(w.now)
    ensures !ok ==> w.now.file.Holds?
    ensures w.now.unread <==> Missed(old(w.now), w.now)
    ensures running.Some? || !ok ==> !w.now.unread
  {
    var existing, failed := w.Load();
    FewerKeepsRecorded(AfterLoad(old(w.now), failed), w.now);
    if existing.Holds? {
      running, terminated, ok := StopUnlessRunning(w, existing.record);
    } else {
      running, terminated, ok := None, false, true;
      RecordTells(w.now);
    }
  }

  /** The same for a record that was read. */
  method StopUnlessRunning(w: World, r: RuntimeState) returns (running: Option<RuntimeState>, terminated: bool, ok: bool)
    requires w.Valid() && Settled(w.now) && w.now.file == Holds(r)
    modifies w
    ensures w.Valid() && old(w.trace) <= w.trace && Fewer(old(w.now), w.now) && Settled(w.now)
    ensures running.Some? ==> ok && running.value == r && r.phase == "running" && Tracked(w.now, r) && Managed(w.now, r)
    ensures ok && running.None? ==> OnlyLost(w.now) && NoneRecorded(w.now)
  {
    running, terminated, ok := None, false, true;
    var managed := w.IsManaged(r);
    RecordTells(w.now);
    if managed && r.phase == "running" {
      running := Some(r);
    } else if managed {
      ok := StopTracked(w, r, r);
      terminated := ok;
    }
  }

  /** What start() has found when it returns before its loop. */
  ghost predicate EarlyExit(s: State, t: State, result: StartResult) {
    match result
    case Started(status) =>
      && KeepsMemory(s, t) && !t.unread && t.file == s.file && t.file.Holds? && t.file.record.phase == "running"
      && Managed(t, t.file.record) && status == StatusFromState(t.file.record)
    case NotStarted(why) =>
      if why.PreviousStillRunning? then KeepsMemory(s, t) && t.file == s.file && t.file.Holds?
      else if why.StaleRecordKept? then t.file == s.file && t.file != Absent && (Missed(s, t) || OnlyLost(t))
      else why.PreviousTunStays? && OnlyLost(t)
  }

  /** start() up to the loop: returns an already running core, or clears away what an earlier run left. */
  method ClearPrevious(w: World) returns (settled: Option<StartResult>)
    requires w.Valid() && Settled(w.now)
    modifies w
    ensures w.Valid() && old(w.trace) <= w.trace && Settled(w.now)
    ensures w.now.abandoned == old(w.now).abandoned && w.now.attempts == old(w.now).attempts
    ensures Forgets(old(w.now), w.now)
    ensures settled.None? ==> OnlyLost(w.now) && w.now.file == Absent && !w.now.unread
    ensures settled.Some? ==> EarlyExit(old(w.now), w.now, settled.value)
  {
    var running, terminated, ok := StopIncomplete(w);
    if !ok {
      return Some(NotStarted(PreviousStillRunning));
    }
    if running.Some? {
      return Some(Started(StatusFromState(running.value)));
    }
    var refused := ClearStale(w, terminated);
    settled := if refused.Some? then Some(NotStarted(refused.value)) else None;
  }

  /** The old record is cleared, and TUN waited for if its core was stopped. */
  method ClearStale(w: World, terminated: bool) returns (refused: Option<StartFailure>)
    requires w.Valid() && Settled(w.now) && (w.now.unread || (OnlyLost(w.now) && NoneRecorded(w.now)))
    modifies w
    ensures w.Valid() && old(w.trace) <= w.trace && Settled(w.now)
    ensures w.now.abandoned == old(w.now).abandoned && w.now.attempts == old(w.now).attempts
    ensures w.now.failedLoads == old(w.now).failedLoads
    ensures old(w.now).forgotten <= w.now.forgotten <= old(w.now).forgotten + RecordedCore(old(w.now))
    ensures refused.None? ==> OnlyLost(w.now) && w.now.file == Absent && !w.now.unread
    ensures refused.Some? ==>
      if refused.value.StaleRecordKept? then
        w.now.file == old(w.now).file && w.now.file != Absent && (old(w.now).unread || OnlyLost(w.now))
      else refused.value.PreviousTunStays? && OnlyLost(w.now)
  {
    var cleared := w.Clear();
    if !cleared {
      return Some(StaleRecordKept);
    }
    if terminated {
      var removed := AwaitTunRemoval(w);
      if !removed {
        return Some(PreviousTunStays);
      }
    }
    refused := None;
  }

  /** A live core is forgotten only if it was recorded and a load() failed to read that. */
  ghost predicate Forgets(s: State, t: State) {
    s.forgotten <= t.forgotten <= s.forgotten + RecordedCore(s) && (Missed(s, t) || t.forgotten == s.forgotten)
  }

  /** How a round of the start loop may end; None asks for the next round. */
  ghost predicate RoundEnds(s: State, t: State, plan: Plan, autoRedirect: bool, outcome: Option<StartResult>) {
    && Settled(t) && KeepsMemory(s, t)
    && (!(outcome.Some? && outcome.value.NotStarted? && LeavesUnrecorded(outcome.value.why)) ==>
          t.abandoned == s.abandoned)
    && match outcome
       case None => OnlyLost(t) && t.file == Absent
       case Some(Started(status)) =>
         && t.file.Holds?
         && var r := t.file.record;
            && r == RecordOf(plan, r.pid, r.startTicks, autoRedirect).(phase := "running") && Storable(r)
            && status == StatusFromState(r) && Confirmed(t, IdOf(r))
       case Some(NotStarted(why)) =>
         if LeavesRecorded(why) then t.file.Holds? else OnlyLost(t)
  }

  /** One round of the start loop. */
  method Attempt(w: World, plan: Plan, autoRedirect: bool) returns (outcome: Option<StartResult>)
    requires w.Valid() && Settled(w.now) && OnlyLost(w.now) && w.now.file == Absent && Recordable(plan)
    modifies w
    ensures w.Valid() && old(w.trace) <= w.trace && RoundEnds(old(w.now), w.now, plan, autoRedirect, outcome)
    ensures old(w.now).attempts <= w.now.attempts <= old(w.now).attempts + 1
    ensures outcome.None? || outcome.value.Started? ==> w.now.attempts == old(w.now).attempts + 1
  {
    var refused := Prepare(w);
    NothingSpawned(old(w.now), w.now);
    if refused.Some? {
      return Some(NotStarted(refused.value));
    }
    outcome := SpawnAndAdopt(w, plan, autoRedirect);
  }

  lemma NothingSpawned(s: State, t: State)
    requires Settled(s) && OnlyLost(s) && s.file == Absent && Calm(s.(attempts := t.attempts, checked := t.checked), t)
    ensures Settled(t) && OnlyLost(t) && t.file == Absent && KeepsMemory(s, t) && t.abandoned == s.abandoned
  {
    forall id | LiveCore(t, id)
      ensures LiveCore(s, id)
    {
      assert LiveCore(s.(attempts := t.attempts, checked := t.checked), id);
    }
  }

  /** The rest of the round: a child that cannot be spawned asks for the next one. */
  method SpawnAndAdopt(w: World, plan: Plan, autoRedirect: bool) returns (outcome: Option<StartResult>)
    requires w.Valid() && Settled(w.now) && OnlyLost(w.now) && w.now.file == Absent && Recordable(plan)
    requires w.now.tunClear && w.now.checked
    modifies w
    ensures w.Valid() && old(w.trace) <= w.trace && RoundEnds(old(w.now), w.now, plan, autoRedirect, outcome)
    ensures w.now.attempts == old(w.now).attempts + 1
  {
    var child := w.Spawn(plan.executable);
    if child.None? {
      NothingSpawned(old(w.now), w.now);
      return None;
    }
    outcome := Adopt(w, plan, child.value, autoRedirect);
  }

  /** What must hold before a core is spawned: no TUN, and a configuration that the core accepts. */
  method Prepare(w: World) returns (refused: Option<StartFailure>)
    requires w.Valid()
    modifies w
    ensures w.Valid() && old(w.trace) <= w.trace && Calm(old(w.now).(checked := w.now.checked), w.now)
    ensures refused.None? ==> w.now.tunClear && w.now.checked
    ensures refused.Some? ==> refused.value.TunExistsOutside? || refused.value.ConfigRejected?
  {
    var present := w.TunExists();
    if present {
      return Some(TunExistsOutside);
    }
    var accepted := w.CheckConfig();
    refused := if accepted then None else Some(ConfigRejected);
  }

  /** The round once the child runs: its start ticks complete its identity. */
  method Adopt(w: World, plan: Plan, pid: int, autoRedirect: bool) returns (outcome: Option<StartResult>)
    requires w.Valid() && Recordable(plan) && 0 < pid < 0x8000_0000 && pid in w.now.processes
    requires Fresh(w.now, RecordOf(plan, pid, w.now.processes[pid].ticks, autoRedirect))
    modifies w
    ensures w.Valid() && old(w.trace) <= w.trace && RoundEnds(old(w.now), w.now, plan, autoRedirect, outcome)
    ensures w.now.attempts == old(w.now).attempts
  {
    var ticks := w.ChildStartTicks(pid);
    assert Continues(old(w.now), w.now, pid);
    if ticks.Some? {
      outcome := Launch(w, RecordOf(plan, pid, ticks.value, autoRedirect));
    } else {
      var result := DropChild(w, pid, RecordOf(plan, pid, w.now.processes[pid].ticks, autoRedirect));
      outcome := Some(result);
    }
  }

  /** A child whose start ticks cannot be read is killed and reaped, or left behind. */
  method DropChild(w: World, pid: int, ghost r: RuntimeState) returns (result: StartResult)
    requires w.Valid() && Fresh(w.now, r) && r.pid == pid
    modifies w
    ensures w.Valid() && old(w.trace) <= w.trace && Settled(w.now) && KeepsMemory(old(w.now), w.now)
    ensures w.now.attempts == old(w.now).attempts && OnlyLost(w.now)
    ensures result.NotStarted? && !LeavesRecorded(result.why)
    ensures !LeavesUnrecorded(result.why) ==> w.now.abandoned == old(w.now).abandoned
  {
    var killed := w.KillChild(pid);
    if killed {
      w.AwaitChild(pid);
      result := NotStarted(ChildWithoutTicks);
    } else {
      w.GiveUp();
      result := NotStarted(ChildLeftBehind);
    }
  }

  /** r describes the core that was just spawned; nothing about it is in the file yet. */
  ghost predicate Fresh(s: State, r: RuntimeState) {
    && s.file == Absent && s.pending == Some(IdOf(r))
    && r.pid in s.children && r.pid in s.processes
    && s.processes[r.pid] == Process(r.startTicks, r.executable, true, s.processes[r.pid].zombie)
    && forall id | LiveCore(s, id) :: Lost(s, id) || id == IdOf(r)
  }

  /** How the round of the core r may end. */
  ghost predicate CoreEnds(s: State, t: State, r: RuntimeState, outcome: Option<StartResult>) {
    && Settled(t) && KeepsMemory(s, t)
    && (!(outcome.Some? && outcome.value.NotStarted? && LeavesUnrecorded(outcome.value.why)) ==>
          t.abandoned == s.abandoned)
    && match outcome
       case None => OnlyLost(t) && t.file == Absent
       case Some(Started(status)) =>
         && t.file == Holds(r.(phase := "running")) && status == StatusFromState(r.(phase := "running"))
         && Confirmed(t, IdOf(r))
       case Some(NotStarted(why)) =>
         if LeavesRecorded(why) then t.file == Holds(r) else OnlyLost(t)
  }

  lemma SavedIsTracked(s: State, t: State, r: RuntimeState)
    requires Fresh(s, r) && Storable(r) && Calm(AfterSave(s, r), t)
    ensures Tracked(t, r) && IdOf(r) in t.saved && KeepsMemory(s, t) && t.abandoned == s.abandoned
    ensures r.pid in t.children && r.pid in t.processes && t.processes[r.pid].ticks == r.startTicks
  {
    assert Continues(AfterSave(s, r), t, r.pid);
    forall id | LiveCore(t, id) && !Lost(t, id)
      ensures id == IdOf(r) && Managed(t, r)
    {
      assert LiveCore(AfterSave(s, r), id) && LiveCore(s, id);
    }
  }

  /** The round after the start ticks are known: the provisional record, then the wait for TUN. */
  method Launch(w: World, r: RuntimeState) returns (outcome: Option<StartResult>)
    requires w.Valid() && Fresh(w.now, r) && Storable(r) && r.phase == "starting"
    modifies w
    ensures w.Valid() && old(w.trace) <= w.trace && CoreEnds(old(w.now), w.now, r, outcome)
    ensures w.now.attempts == old(w.now).attempts
  {
    var provisional := w.Save(r);
    if provisional {
      SavedIsTracked(old(w.now), w.now, r);
      outcome := Supervise(w, r);
      return;
    }
    var result := StopUnrecorded(w, r);
    outcome := Some(result);
  }

  /** The provisional record could not be saved: the core is stopped again, or left behind. */
  method StopUnrecorded(w: World, r: RuntimeState) returns (result: StartResult)
    requires w.Valid() && Fresh(w.now, r)
    modifies w
    ensures w.Valid() && old(w.trace) <= w.trace && Settled(w.now) && KeepsMemory(old(w.now), w.now)
    ensures w.now.attempts == old(w.now).attempts && OnlyLost(w.now)
    ensures result.NotStarted? && !LeavesRecorded(result.why)
    ensures !LeavesUnrecorded(result.why) ==> w.now.abandoned == old(w.now).abandoned
  {
    var stopped := TerminateCore(w, r);
    if !stopped {
      w.GiveUp();
      return NotStarted(CoreLeftBehind);
    }
    var removed := AwaitTunRemoval(w);
    result := NotStarted(if removed then RecordNotSaved else TunStays);
  }

  lemma FewerKeepsTracked(s: State, t: State, r: RuntimeState)
    requires Tracked(s, r) && Fewer(s, t)
    ensures Tracked(t, r)
  {
  }

  /** Stops the recorded core; `target` names the same process as the record r. */
  method StopTracked(w: World, r: RuntimeState, target: RuntimeState) returns (stopped: bool)
    requires w.Valid() && Tracked(w.now, r) && IdOf(target) == IdOf(r) && target.executable == r.executable
    modifies w
    ensures w.Valid() && old(w.trace) <= w.trace && Fewer(old(w.now), w.now) && Settled(w.now)
    ensures w.now.file == Holds(r)
    ensures stopped ==> OnlyLost(w.now) && NoneRecorded(w.now)
  {
    stopped := TerminateCore(w, target);
    FewerKeepsTracked(old(w.now), w.now, r);
  }

  /** clear() and awaitTunRemoval() once no recorded core is left. */
  method ClearAndAwait(w: World) returns (cleared: bool, removed: bool)
    requires w.Valid() && OnlyLost(w.now) && NoneRecorded(w.now) && Settled(w.now)
    modifies w
    ensures w.Valid() && old(w.trace) <= w.trace && Settled(w.now) && OnlyLost(w.now) && KeepsMemory(old(w.now), w.now)
    ensures w.now.abandoned == old(w.now).abandoned && w.now.attempts == old(w.now).attempts
    ensures w.now.file == if cleared then Absent else old(w.now).file
  {
    cleared := w.Clear();
    removed := AwaitTunRemoval(w);
  }

  /** The rest of the round, once the provisional record is in the file. */
  method Supervise(w: World, r: RuntimeState) returns (outcome: Option<StartResult>)
    requires w.Valid() && Tracked(w.now, r) && Storable(r) && r.phase == "starting" && IdOf(r) in w.now.saved
    requires r.pid in w.now.children && w.now.processes[r.pid].ticks == r.startTicks
    modifies w
    ensures w.Valid() && old(w.trace) <= w.trace && CoreEnds(old(w.now), w.now, r, outcome)
    ensures w.now.attempts == old(w.now).attempts
    ensures outcome.Some? && outcome.value.NotStarted? ==> !LeavesUnrecorded(outcome.value.why)
  {
    var ready := WaitForTun(w, IdOf(r));
    FewerKeepsTracked(old(w.now), w.now, r);
    if ready.Ready? {
      var result := Confirm(w, r);
      return Some(result);
    }
    if ready.CoreExited? {
      GoneLeavesOnlyLost(w.now, r);
    } else {
      var stopped := StopTracked(w, r, r);
      if !stopped {
        return Some(NotStarted(CoreStillRunning));
      }
    }
    outcome := EndRound(w, ready.WaitBroken?);
  }

  /** The core of this round is gone: its record is cleared and its TUN waited for. */
  method EndRound(w: World, broken: bool) returns (outcome: Option<StartResult>)
    requires w.Valid() && OnlyLost(w.now) && NoneRecorded(w.now) && Settled(w.now)
    modifies w
    ensures w.Valid() && old(w.trace) <= w.trace && Settled(w.now) && KeepsMemory(old(w.now), w.now)
    ensures w.now.abandoned == old(w.now).abandoned && w.now.attempts == old(w.now).attempts && OnlyLost(w.now)
    ensures outcome.None? ==> w.now.file == Absent && w.now.tunClear
    ensures outcome.Some? ==>
      outcome.value.NotStarted? && !LeavesUnrecorded(outcome.value.why) && !LeavesRecorded(outcome.value.why)
  {
    if broken {
      var _, _ := ClearAndAwait(w);
      return Some(NotStarted(WaitFailed));
    }
    var cleared := w.Clear();
    if !cleared {
      return Some(NotStarted(RecordKept));
    }
    var removed := AwaitTunRemoval(w);
    if !removed {
      return Some(NotStarted(TunStays));
    }
    outcome := None;
  }

  /** TUN is up: the record moves from "starting" to "running", or the core is stopped again. */
  method Confirm(w: World, r: RuntimeState) returns (result: StartResult)
    requires w.Valid() && Tracked(w.now, r) && Storable(r) && r.phase == "starting"
    requires Confirmed(w.now, IdOf(r))
    modifies w
    ensures w.Valid() && old(w.trace) <= w.trace && CoreEnds(old(w.now), w.now, r, Some(result))
    ensures w.now.attempts == old(w.now).attempts
    ensures result.NotStarted? ==> !LeavesUnrecorded(result.why)
  {
    var running := r.(phase := "running");
    assert running.(phase := "starting") == r;
    var saved := w.Save(running);
    if saved {
      return Started(StatusFromState(running));
    }
    FewerKeepsTracked(old(w.now), w.now, r);
    result := StopUnconfirmed(w, r, running);
  }

  /** The record of a core that is up could not be saved as running. */
  method StopUnconfirmed(w: World, r: RuntimeState, running: RuntimeState) returns (result: StartResult)
    requires w.Valid() && Tracked(w.now, r) && IdOf(running) == IdOf(r) && running.executable == r.executable
    modifies w
    ensures w.Valid() && old(w.trace) <= w.trace && CoreEnds(old(w.now), w.now, r, Some(result))
    ensures w.now.attempts == old(w.now).attempts
    ensures result.NotStarted? && !LeavesUnrecorded(result.why)
  {
    var stopped := StopTracked(w, r, running);
    if !stopped {
      return NotStarted(CoreStillRunning);
    }
    var _, removed := ClearAndAwait(w);
    result := NotStarted(if removed then ReadyNotSaved else TunStays);
  }

  /**
   start(): at most two rounds, auto-redirect first. `preparation` is what the steps before the loop
   produce: TUN device, configuration, upstream probe, bypass policy and verified core.
   */
  method Start(w: World, preparation: Result<Plan>) returns (result: StartResult)
    requires w.Valid() && Settled(w.now)
    requires preparation.Success? ==> Recordable(preparation.value)
    modifies w
    ensures w.Valid() && old(w.trace) <= w.trace && Settled(w.now)
    ensures w.now.attempts <= old(w.now).attempts + 2
    ensures !(result.NotStarted? && LeavesUnrecorded(result.why)) ==> w.now.abandoned == old(w.now).abandoned
    ensures Forgets(old(w.now), w.now)
    ensures result.Started? ==>
      && w.now.file.Holds? && w.now.file.record.phase == "running" && !w.now.unread
      && w.now.file.record.startTicks < w.now.clock
      && result.status == StatusFromState(w.now.file.record)
      && (w.now.attempts == old(w.now).attempts ==>
            w.now.file == old(w.now).file && Managed(w.now, w.now.file.record))
      && (w.now.attempts != old(w.now).attempts ==>
            && Confirmed(w.now, IdOf(w.now.file.record)) && Storable(w.now.file.record)
            && result.status.routingMode == RoutingModeName(w.now.attempts == old(w.now).attempts + 1))
    ensures result.NotStarted? ==>
      if LeavesRecorded(result.why) then w.now.file.Holds?
      else OnlyLost(w.now) ||
           (result.why.StaleRecordKept? && Missed(old(w.now), w.now) && w.now.file == old(w.now).file)
  {
    var previous := ClearPrevious(w);
    if previous.Some? {
      return previous.value;
    }
    if preparation.Failure? {
      return NotStarted(NotPrepared(preparation.error));
    }
    ghost var before, cleared := w.now.attempts, w.now;
    var round := 0;
    while round < 2
      invariant 0 <= round <= 2
      invariant w.Valid() && old(w.trace) <= w.trace && Settled(w.now)
      invariant w.now.abandoned == old(w.now).abandoned && w.now.attempts == before + round
      invariant OnlyLost(w.now) && w.now.file == Absent && !w.now.unread && KeepsMemory(cleared, w.now)
    {
      var outcome := Attempt(w, preparation.value, round == 0);
      if outcome.Some? {
        return outcome.value;
      }
      round := round + 1;
    }
    result := NotStarted(NeverReady);
  }

  datatype StopResult = Stopped | StillRunning | TunStillThere | RecordNotCleared

  /** The core of the record is stopped and its TUN waited for, if it is alive. */
  method StopManaged(w: World, r: RuntimeState) returns (result: StopResult)
    requires w.Valid() && Settled(w.now) && w.now.file == Holds(r)
    modifies w
    ensures w.Valid() && old(w.trace) <= w.trace && Fewer(old(w.now), w.now)
    ensures result.Stopped? ==> OnlyLost(w.now) && NoneRecorded(w.now)
    ensures result.Stopped? ==> w.now.tunClear || NoSignal(w.trace, |old(w.trace)|)
    ensures result.Stopped? && old(w.now.tunClear) ==> w.now.tunClear
    ensures result.TunStillThere? ==> OnlyLost(w.now)
    ensures !result.RecordNotCleared?
  {
    var running := w.IsManaged(r);
    RecordTells(w.now);
    if !running {
      return Stopped;
    }
    var stopped := StopTracked(w, r, r);
    if !stopped {
      return StillRunning;
    }
    var removed := AwaitTunRemoval(w);
    result := if removed then Stopped else TunStillThere;
  }

  /** clear() as the last step of stop(). */
  method ClearRecord(w: World) returns (result: StopResult)
    requires w.Valid() && Settled(w.now) && (NoneRecorded(w.now) || w.now.unread)
    modifies w
    ensures w.Valid() && old(w.trace) <= w.trace && Settled(w.now)
    ensures NoSignal(w.trace, |old(w.trace)|) && (old(w.now).tunClear ==> w.now.tunClear)
    ensures w.now.abandoned == old(w.now).abandoned && w.now.attempts == old(w.now).attempts
    ensures w.now.failedLoads == old(w.now).failedLoads && (!old(w.now).unread ==> !w.now.unread)
    ensures old(w.now).forgotten <= w.now.forgotten <= old(w.now).forgotten + RecordedCore(old(w.now))
    ensures if result.Stopped? then OnlyLost(w.now) && w.now.file == Absent
            else result.RecordNotCleared? && Calm(old(w.now), w.now)
  {
    var cleared := w.Clear();
    result := if cleared then Stopped else RecordNotCleared;
  }

  /** stop(): a record that cannot be read is cleared like one that is not there. */
  method Stop(w: World) returns (result: StopResult)
    requires w.Valid() && Settled(w.now)
    modifies w
    ensures w.Valid() && old(w.trace) <= w.trace && Settled(w.now)
    ensures w.now.abandoned == old(w.now).abandoned && w.now.attempts == old(w.now).attempts
    ensures Forgets(old(w.now), w.now)
    ensures result.Stopped? ==> OnlyLost(w.now) && w.now.file == Absent
    ensures result.Stopped? ==> w.now.tunClear || NoSignal(w.trace, |old(w.trace)|)
    ensures result.Stopped? && old(w.now.tunClear) ==> w.now.tunClear
    ensures !result.Stopped? ==> w.now.file == old(w.now).file
    ensures result.TunStillThere? || (result.RecordNotCleared? && !Missed(old(w.now), w.now)) ==> OnlyLost(w.now)
  {
    var existing, failed := w.Load();
    FewerKeepsRecorded(AfterLoad(old(w.now), failed), w.now);
    if existing.Holds? {
      result := StopRecorded(w, existing.record);
    } else {
      result := ClearRecord(w);
    }
  }

  /** stop() with a record that was read. */
  method StopRecorded(w: World, r: RuntimeState) returns (result: StopResult)
    requires w.Valid() && Settled(w.now) && w.now.file == Holds(r)
    modifies w
    ensures w.Valid() && old(w.trace) <= w.trace && Settled(w.now) && KeepsMemory(old(w.now), w.now)
    ensures w.now.abandoned == old(w.now).abandoned && w.now.attempts == old(w.now).attempts
    ensures result.Stopped? ==> w.now.file == Absent && (w.now.tunClear || NoSignal(w.trace, |old(w.trace)|))
    ensures result.Stopped? && old(w.now.tunClear) ==> w.now.tunClear
    ensures !result.Stopped? ==> w.now.file == old(w.now).file
    ensures !result.StillRunning? ==> OnlyLost(w.now)
  {
    result := StopManaged(w, r);
    if result.Stopped? {
      result := ClearRecord(w);
    }
  }

  /** status(): `idle` is what it reports when no core is up, or the record cannot be read. */
  method Status(w: World, idle: ProxyStatus) returns (status: ProxyStatus)
    requires w.Valid() && !idle.running
    modifies w
    ensures w.Valid() && old(w.trace) <= w.trace && Calm(AfterLoad(old(w.now), Missed(old(w.now), w.now)), w.now)
    ensures status ==
      if !Missed(old(w.now), w.now) && w.now.file.Holds? && w.now.file.record.phase == "running"
         && Managed(w.now, w.now.file.record)
      then StatusFromState(w.now.file.record) else idle
  {
    var existing, failed := w.Load();
    if !existing.Holds? {
      return idle;
    }
    var running := w.IsManaged(existing.record);
    if !running || existing.record.phase != "running" {
      return idle;
    }
    status := StatusFromState(existing.record);
  }
}
