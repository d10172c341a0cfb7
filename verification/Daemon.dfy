/**
 The daemon as a transition system: one thread per client, --direct processes beside it, and the
 shutdown `off`. There is no bound on the clients or on the processes.
 */
module Daemon {
  import opened Common
  import opened Ipc
  import opened Session

  /** Where a worker thread stands in serveClient. */
  datatype WorkerPc =
    | Receiving              // the request is being received
    | Owning                 // the operation mutex was just taken
    | WantsFile              // in the controller, before the file lock
    | Critical               // in the controller, past both locks
    | Finishing              // the controller has returned, the name is still set
    | Returning              // the name is cleared, the answer goes out, the mutex is still held
    | Querying               // a command that takes no lock
    | Closing                // served; the client still counts

  datatype Worker = Worker(pc: WorkerPc, command: Command)

  datatype DirectPc = DirectWants | DirectCritical

  datatype MainPc =
    | Accepting
    | Starting(client: int)  // the client was counted, its thread not started yet
    | Draining               // no more clients; waits until none is counted
    | OffWants | OffCritical // the shutdown `off`
    | Exited

  datatype Holder = ByWorker(client: int) | ByDirect(process: int) | ByMain

  datatype State = State(
    main: MainPc,
    workers: map<int, Worker>,
    directs: map<int, DirectPc>,
    mutex: Option<int>,
    file: Option<Holder>,
    activeName: string,
    activeClients: nat)

  datatype Step =
    | Accept(client: int)
    | ThreadStarts
    | ThreadFails
    | Receive(client: int, request: Option<Command>)
    | SetName(client: int)
    | Rename(client: int, message: string)
    | LockFile(client: int)
    | LockFails(client: int)
    | Finish(client: int)
    | ClearName(client: int)
    | Return(client: int)
    | Answer(client: int)
    | Decrement(client: int)
    | DirectStarts(process: int)
    | DirectLocks(process: int)
    | DirectEnds(process: int)
    | StopRequested
    | Drained(stateFileExists: bool)
    | OffLocks
    | OffEnds
    | DaemonKilled

  predicate At(s: State, client: int, pc: WorkerPc) { client in s.workers && s.workers[client].pc == pc }

  function Goto(s: State, client: int, pc: WorkerPc): State
    requires client in s.workers
  {
    s.(workers := s.workers[client := s.workers[client].(pc := pc)])
  }

  predicate Enabled(s: State, e: Step) {
    match e
    case Accept(c) => s.main == Accepting && c !in s.workers
    case ThreadStarts => s.main.Starting?
    case ThreadFails => s.main.Starting?
    case Receive(c, _) => At(s, c, Receiving)
    case SetName(c) => At(s, c, Owning)
    case Rename(c, _) => At(s, c, WantsFile) || At(s, c, Critical)
    case LockFile(c) => At(s, c, WantsFile) && s.file.None?
    case LockFails(c) => At(s, c, WantsFile)
    case Finish(c) => At(s, c, Critical)
    case ClearName(c) => At(s, c, Finishing)
    case Return(c) => At(s, c, Returning)
    case Answer(c) => At(s, c, Querying)
    case Decrement(c) => At(s, c, Closing)
    case DirectStarts(p) => p !in s.directs
    case DirectLocks(p) => p in s.directs && s.directs[p] == DirectWants && s.file.None?
    case DirectEnds(p) => p in s.directs
    case StopRequested => s.main == Accepting
    case Drained(_) => s.main == Draining && s.activeClients == 0
    case OffLocks => s.main == OffWants && s.file.None?
    case OffEnds => s.main == OffWants || s.main == OffCritical
    case DaemonKilled => true
  }

  /** Locks held by the daemon process die with it. */
  function Without(file: Option<Holder>, h: Holder): Option<Holder> { if file == Some(h) then None else file }

  function After(s: State, e: Step): State
    requires Enabled(s, e)
  {
    match e
    case Accept(c) => s.(main := Starting(c), activeClients := s.activeClients + 1)
    case ThreadStarts =>
      s.(main := Accepting, workers := s.workers[s.main.client := Worker(Receiving, Status)])
    case ThreadFails => s.(main := Accepting, activeClients := if s.activeClients > 0 then s.activeClients - 1 else 0)
    case Receive(c, None) => Goto(s, c, Closing)
    case Receive(c, Some(command)) =>
      if !IsMutating(command) then s.(workers := s.workers[c := Worker(Querying, command)])
      else if s.mutex.Some? then s.(workers := s.workers[c := Worker(Closing, command)])
      else s.(workers := s.workers[c := Worker(Owning, command)], mutex := Some(c))
    case SetName(c) => Goto(s, c, WantsFile).(activeName := CommandName(s.workers[c].command))
    case Rename(c, message) => s.(activeName := CommandName(s.workers[c].command) + ": " + message)
    case LockFile(c) => Goto(s, c, Critical).(file := Some(ByWorker(c)))
    case LockFails(c) => Goto(s, c, Finishing)
    case Finish(c) => Goto(s, c, Finishing).(file := Without(s.file, ByWorker(c)))
    case ClearName(c) => Goto(s, c, Returning).(activeName := "")
    case Return(c) => Goto(s, c, Closing).(mutex := None)
    case Answer(c) => Goto(s, c, Closing)
    case Decrement(c) =>
      s.(workers := s.workers - {c}, activeClients := if s.activeClients > 0 then s.activeClients - 1 else 0)
    case DirectStarts(p) => s.(directs := s.directs[p := DirectWants])
    case DirectLocks(p) => s.(directs := s.directs[p := DirectCritical], file := Some(ByDirect(p)))
    case DirectEnds(p) => s.(directs := s.directs - {p}, file := Without(s.file, ByDirect(p)))
    case StopRequested => s.(main := Draining)
    case Drained(stateFileExists) => s.(main := if stateFileExists then OffWants else Exited)
    case OffLocks => s.(main := OffCritical, file := Some(ByMain))
    case OffEnds => s.(main := Exited, file := Without(s.file, ByMain))
    case DaemonKilled =>
      s.(main := Exited, workers := map[], mutex := None, activeName := "", activeClients := 0,
         file := if s.file.Some? && s.file.value.ByDirect? then s.file else None)
  }

  const INITIAL := State(Accepting, map[], map[], None, None, "", 0)

  // ----- the invariant

  predicate HoldsMutex(pc: WorkerPc) {
    pc == Owning || pc == WantsFile || pc == Critical || pc == Finishing || pc == Returning
  }

  /** The controller is running, or has just returned. */
  predicate Executing(pc: WorkerPc) { pc == WantsFile || pc == Critical || pc == Finishing }

  predicate HoldsFile(s: State, h: Holder) {
    match h
    case ByWorker(c) => At(s, c, Critical)
    case ByDirect(p) => p in s.directs && s.directs[p] == DirectCritical
    case ByMain => s.main == OffCritical
  }

  ghost predicate Inv(s: State) {
    && (forall c | c in s.workers && HoldsMutex(s.workers[c].pc) :: s.mutex == Some(c))
    && (s.mutex.Some? ==> s.mutex.value in s.workers && HoldsMutex(s.workers[s.mutex.value].pc))
    && (forall h :: HoldsFile(s, h) <==> s.file == Some(h))
    && (s.activeName != "" ==> s.mutex.Some? && Executing(s.workers[s.mutex.value].pc))
    && (forall c | c in s.workers && HoldsMutex(s.workers[c].pc) :: IsMutating(s.workers[c].command))
    && s.activeClients == |s.workers| + (if s.main.Starting? then 1 else 0)
    && (s.main.Starting? ==> s.main.client !in s.workers)
    && (s.main.OffWants? || s.main.OffCritical? || s.main.Exited? ==> s.workers == map[])
  }

  /** A worker whose new place holds no lock leaves the invariant alone. */
  lemma LocklessKeepsInv(s: State, c: int, worker: Worker)
    requires Inv(s) && At(s, c, Receiving) && (worker.pc == Querying || worker.pc == Closing)
    ensures Inv(s.(workers := s.workers[c := worker]))
  {
    var t := s.(workers := s.workers[c := worker]);
    assert t.workers.Keys == s.workers.Keys;
    assert forall h :: HoldsFile(t, h) <==> HoldsFile(s, h);
  }

  lemma OwningKeepsInv(s: State, c: int, command: Command)
    requires Inv(s) && At(s, c, Receiving) && IsMutating(command) && s.mutex.None?
    ensures Inv(s.(workers := s.workers[c := Worker(Owning, command)], mutex := Some(c)))
  {
    var t := s.(workers := s.workers[c := Worker(Owning, command)], mutex := Some(c));
    assert t.workers.Keys == s.workers.Keys;
    assert forall h :: HoldsFile(t, h) <==> HoldsFile(s, h);
  }

  lemma ReceiveKeepsInv(s: State, c: int, request: Option<Command>)
    requires Inv(s) && At(s, c, Receiving)
    ensures Inv(After(s, Receive(c, request)))
  {
    match request {
      case None =>
        LocklessKeepsInv(s, c, s.workers[c].(pc := Closing));
      case Some(command) =>
        if IsMutating(command) && s.mutex.None? {
          OwningKeepsInv(s, c, command);
        } else {
          LocklessKeepsInv(s, c, Worker(if IsMutating(command) then Closing else Querying, command));
        }
    }
  }

  /** The steps around the name, all taken by the holder of the mutex. */
  lemma NamingKeepsInv(s: State, e: Step)
    requires Inv(s) && Enabled(s, e) && (e.SetName? || e.Rename? || e.ClearName?)
    ensures Inv(After(s, e))
  {
    var t := After(s, e);
    assert s.mutex == Some(e.client);
    assert t.workers.Keys == s.workers.Keys;
    assert forall h :: HoldsFile(t, h) <==> HoldsFile(s, h);
  }

  lemma ReturnKeepsInv(s: State, c: int)
    requires Inv(s) && Enabled(s, Return(c))
    ensures Inv(After(s, Return(c)))
  {
    var t := After(s, Return(c));
    assert t.workers.Keys == s.workers.Keys;
    assert forall h :: HoldsFile(t, h) <==> HoldsFile(s, h);
  }

  lemma AnswerKeepsInv(s: State, c: int)
    requires Inv(s) && Enabled(s, Answer(c))
    ensures Inv(After(s, Answer(c)))
  {
    var t := After(s, Answer(c));
    assert t.workers.Keys == s.workers.Keys;
    assert forall h :: HoldsFile(t, h) <==> HoldsFile(s, h);
  }

  lemma LockStepKeepsInv(s: State, e: Step)
    requires Inv(s) && Enabled(s, e) && (e.LockFile? || e.LockFails? || e.Finish?)
    ensures Inv(After(s, e))
  {
    var t := After(s, e);
    assert t.workers.Keys == s.workers.Keys;
    forall h
      ensures HoldsFile(t, h) <==> t.file == Some(h)
    {
      assert HoldsFile(s, h) <==> s.file == Some(h);
      assert HoldsFile(s, ByWorker(e.client)) <==> s.file == Some(ByWorker(e.client));
    }
  }

  lemma DirectStartsKeepsInv(s: State, p: int)
    requires Inv(s) && Enabled(s, DirectStarts(p))
    ensures Inv(After(s, DirectStarts(p)))
  {
    assert forall h :: HoldsFile(After(s, DirectStarts(p)), h) <==> HoldsFile(s, h);
  }

  lemma DirectLocksKeepsInv(s: State, p: int)
    requires Inv(s) && Enabled(s, DirectLocks(p))
    ensures Inv(After(s, DirectLocks(p)))
  {
    var t := After(s, DirectLocks(p));
    forall h
      ensures HoldsFile(t, h) <==> h == ByDirect(p)
    {
      assert !HoldsFile(s, h);
    }
  }

  lemma DirectEndsKeepsInv(s: State, p: int)
    requires Inv(s) && Enabled(s, DirectEnds(p))
    ensures Inv(After(s, DirectEnds(p)))
  {
    var t := After(s, DirectEnds(p));
    assert HoldsFile(s, ByDirect(p)) <==> s.file == Some(ByDirect(p));
    forall h
      ensures HoldsFile(t, h) <==> t.file == Some(h)
    {
      assert HoldsFile(s, h) <==> s.file == Some(h);
    }
  }

  lemma DecrementKeepsInv(s: State, c: int)
    requires Inv(s) && Enabled(s, Decrement(c))
    ensures Inv(After(s, Decrement(c)))
  {
    var t := After(s, Decrement(c));
    assert t.workers.Keys == s.workers.Keys - {c};
    assert |t.workers.Keys| == |s.workers.Keys| - 1;
    assert forall h :: HoldsFile(t, h) <==> HoldsFile(s, h);
  }

  lemma OneMore(workers: map<int, Worker>, c: int, worker: Worker)
    requires c !in workers
    ensures |workers[c := worker]| == |workers| + 1
  {
    var more := workers[c := worker];
    assert more.Keys == workers.Keys + {c};
    assert |more.Keys| == |workers.Keys| + 1;
  }

  lemma ThreadStartsKeepsInv(s: State)
    requires Inv(s) && Enabled(s, ThreadStarts)
    ensures Inv(After(s, ThreadStarts))
  {
    var t := After(s, ThreadStarts);
    OneMore(s.workers, s.main.client, Worker(Receiving, Status));
    forall h
      ensures HoldsFile(t, h) <==> t.file == Some(h)
    {
      assert HoldsFile(s, h) <==> s.file == Some(h);
    }
  }

  lemma ClientStepKeepsInv(s: State, e: Step)
    requires Inv(s) && Enabled(s, e) && (e.Accept? || e.ThreadStarts? || e.ThreadFails? || e.Decrement?)
    ensures Inv(After(s, e))
  {
    if e.Decrement? {
      DecrementKeepsInv(s, e.client);
    } else if e.ThreadStarts? {
      ThreadStartsKeepsInv(s);
    } else {
      assert forall h :: HoldsFile(After(s, e), h) <==> HoldsFile(s, h);
    }
  }

  lemma MainStepKeepsInv(s: State, e: Step)
    requires Inv(s) && Enabled(s, e)
    requires e.StopRequested? || e.Drained? || e.OffLocks? || e.OffEnds? || e.DaemonKilled?
    ensures Inv(After(s, e))
  {
    var t := After(s, e);
    forall h
      ensures HoldsFile(t, h) <==> t.file == Some(h)
    {
      assert HoldsFile(s, h) <==> s.file == Some(h);
      assert HoldsFile(s, ByMain) <==> s.file == Some(ByMain);
    }
    if e.Drained? {
      NobodyCountedMeansNobodyThere(s);
    }
  }

  lemma NobodyCountedMeansNobodyThere(s: State)
    requires Inv(s) && s.main == Draining
    ensures s.activeClients == 0 <==> s.workers == map[]
  {
    assert |s.workers.Keys| == |s.workers|;
    if s.workers.Keys == {} {
      assert s.workers == map[];
    }
  }

  lemma StepKeepsInv(s: State, e: Step)
    requires Inv(s) && Enabled(s, e)
    ensures Inv(After(s, e))
  {
    if e.Receive? {
      ReceiveKeepsInv(s, e.client, e.request);
    } else if e.SetName? || e.Rename? || e.ClearName? {
      NamingKeepsInv(s, e);
    } else if e.Return? {
      ReturnKeepsInv(s, e.client);
    } else if e.Answer? {
      AnswerKeepsInv(s, e.client);
    } else if e.LockFile? || e.LockFails? || e.Finish? {
      LockStepKeepsInv(s, e);
    } else if e.DirectStarts? {
      DirectStartsKeepsInv(s, e.process);
    } else if e.DirectLocks? {
      DirectLocksKeepsInv(s, e.process);
    } else if e.DirectEnds? {
      DirectEndsKeepsInv(s, e.process);
    } else if e.Accept? || e.ThreadStarts? || e.ThreadFails? || e.Decrement? {
      ClientStepKeepsInv(s, e);
    } else {
      MainStepKeepsInv(s, e);
    }
  }

  // ----- runs

  /** Some enabled steps from the initial state, and the states between them. */
  predicate Run(steps: seq<Step>, states: seq<State>) {
    && |states| == |steps| + 1 && states[0] == INITIAL
    && forall i | 0 <= i < |steps| :: Enabled(states[i], steps[i]) && states[i + 1] == After(states[i], steps[i])
  }

  lemma {:induction false} RunsKeepInv(steps: seq<Step>, states: seq<State>, i: nat)
    requires Run(steps, states) && i < |states|
    ensures Inv(states[i])
  {
    if i == 0 {
      assert forall h :: !HoldsFile(INITIAL, h);
    } else {
      RunsKeepInv(steps, states, i - 1);
      StepKeepsInv(states[i - 1], steps[i - 1]);
    }
  }

  /** At most one command, of whatever origin, is past both locks. */
  lemma AtMostOneIsCritical(steps: seq<Step>, states: seq<State>, i: nat, a: Holder, b: Holder)
    requires Run(steps, states) && i < |states| && HoldsFile(states[i], a) && HoldsFile(states[i], b)
    ensures a == b
  {
    RunsKeepInv(steps, states, i);
  }

  lemma HolderMutates(s: State, c: int)
    requires Inv(s) && c in s.workers && HoldsMutex(s.workers[c].pc)
    ensures IsMutating(s.workers[c].command)
  {
  }

  /** A name is only shown while the holder of the operation mutex executes a mutating command. */
  lemma ShownNameMeansExecuting(steps: seq<Step>, states: seq<State>, i: nat)
    requires Run(steps, states) && i < |states| && states[i].activeName != ""
    ensures var s := states[i];
      && s.mutex.Some? && s.mutex.value in s.workers
      && Executing(s.workers[s.mutex.value].pc) && IsMutating(s.workers[s.mutex.value].command)
  {
    RunsKeepInv(steps, states, i);
    HolderMutates(states[i], states[i].mutex.value);
  }

  /** The counter counts the workers that have not decremented it, and a client whose thread is being started. */
  lemma CounterCountsWorkers(steps: seq<Step>, states: seq<State>, i: nat)
    requires Run(steps, states) && i < |states|
    ensures states[i].activeClients == |states[i].workers| + (if states[i].main.Starting? then 1 else 0)
  {
    RunsKeepInv(steps, states, i);
  }

  /** The shutdown `off` starts with no worker left, and none comes while it runs. */
  lemma ShutdownRunsAlone(steps: seq<Step>, states: seq<State>, i: nat)
    requires Run(steps, states) && i < |states| && (states[i].main.OffWants? || states[i].main.OffCritical?)
    ensures states[i].workers == map[] && states[i].mutex.None? && states[i].activeName == ""
  {
    RunsKeepInv(steps, states, i);
  }

  // ----- no deadlock

  predicate Unfinished(s: State, h: Holder) {
    match h
    case ByWorker(c) => c in s.workers
    case ByDirect(p) => p in s.directs
    case ByMain => s.main != Exited
  }

  /** The step that takes an actor on; None while it waits for somebody else. */
  function Onward(s: State, h: Holder): (e: Option<Step>)
    requires Unfinished(s, h)
    ensures e.Some? ==> Enabled(s, e.value)
  {
    match h
    case ByWorker(c) => (
      match s.workers[c].pc
      case Receiving => Some(Receive(c, None))
      case Owning => Some(SetName(c))
      case WantsFile => if s.file.None? then Some(LockFile(c)) else None
      case Critical => Some(Finish(c))
      case Finishing => Some(ClearName(c))
      case Returning => Some(Return(c))
      case Querying => Some(Answer(c))
      case Closing => Some(Decrement(c)))
    case ByDirect(p) =>
      if s.directs[p] == DirectCritical then Some(DirectEnds(p))
      else if s.file.None? then Some(DirectLocks(p)) else None
    case ByMain =>
      match s.main
      case Accepting => Some(StopRequested)
      case Starting(_) => Some(ThreadFails)
      case Draining => if s.activeClients == 0 then Some(Drained(true)) else None
      case OffWants => if s.file.None? then Some(OffLocks) else None
      case OffCritical => Some(OffEnds)
      case Exited => None
  }

  /** The actor w cannot go on before the actor h has: h holds the file lock w wants, or main drains the worker h. */
  predicate WaitsOn(s: State, w: Holder, h: Holder) {
    match w
    case ByWorker(c) => At(s, c, WantsFile) && s.file == Some(h)
    case ByDirect(p) => p in s.directs && s.directs[p] == DirectWants && s.file == Some(h)
    case ByMain => (s.main == OffWants && s.file == Some(h)) || (s.main == Draining && h.ByWorker? && h.client in s.workers)
  }

  /**
   Whoever waits, waits for somebody who can go on: itself, the actor it waits for, or the actor that one
   waits for. The drain may wait for a worker that waits for the file lock; there are no longer chains.
   */
  lemma NoDeadlock(steps: seq<Step>, states: seq<State>, i: nat, waiting: Holder) returns (a: Holder, b: Holder)
    requires Run(steps, states) && i < |states| && Unfinished(states[i], waiting)
    ensures a == waiting || WaitsOn(states[i], waiting, a)
    ensures b == a || WaitsOn(states[i], a, b)
    ensures Unfinished(states[i], b) && Onward(states[i], b).Some?
  {
    RunsKeepInv(steps, states, i);
    a := NextInLine(states[i], waiting);
    b := NextInLine(states[i], a);
    assert HoldsFile(states[i], b) || Onward(states[i], b).Some?;
  }

  /** An actor that cannot go on waits for an unfinished one: the holder of the file lock, or a worker. */
  lemma NextInLine(s: State, waiting: Holder) returns (next: Holder)
    requires Inv(s) && Unfinished(s, waiting)
    ensures Unfinished(s, next)
    ensures if Onward(s, waiting).Some? then next == waiting else WaitsOn(s, waiting, next)
    ensures Onward(s, waiting).None? ==> HoldsFile(s, next) || (waiting.ByMain? && s.main == Draining && next.ByWorker?)
  {
    next := waiting;
    if Onward(s, waiting).None? {
      if waiting.ByMain? && s.main == Draining {
        NobodyCountedMeansNobodyThere(s);
        SomeWorker(s);
        var c :| c in s.workers;
        next := ByWorker(c);
      } else {
        next := s.file.value;
        assert HoldsFile(s, next);
      }
    }
  }

  lemma SomeWorker(s: State)
    ensures s.workers == map[] || exists c :: c in s.workers
  {
    if forall c :: c !in s.workers {
      assert s.workers == map[];
    }
  }
}
