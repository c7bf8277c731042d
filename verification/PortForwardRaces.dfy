/**
 * The port-forward handlers as interleaved steps. A handler locks the map of process handles and the
 * map of records one after the other, so other handlers can come in between. Dropping a handle does
 * not stop its `kubectl`; only killing it does.
 */
module PortForwardRaces {
  import opened PortForwards
  import opened Wrappers

  type Pid = nat
  type TaskId = nat

  /** Where a handler is, with the child it holds. */
  datatype Task =
    | Creating(child: Pid)
    | Numbered(id: U64, child: Pid)
    | Found(id: U64, existing: PortForward)   // a restart read a record that does not run
    | Cleared(id: U64, existing: PortForward) // and dropped its handle
    | Respawned(id: U64, existing: PortForward, child: Pid)
    | Listed(id: U64, child: Pid)             // the record is there, the handle is not
    | Stopping(id: U64)                       // the handle is gone, the record is not paused yet
    | Deleting(id: U64)                       // the handle is gone, the record is not
    | Pausing(ids: set<U64>)                  // handles of exited processes are gone, records are not paused yet

  datatype Sys = Sys(
    forwards: Forwards, processes: map<U64, Pid>, nextId: U64, tasks: map<TaskId, Task>, live: set<Pid>,
    spawned: set<Pid>)

  datatype Event =
    | SpawnNew(task: TaskId, pid: Pid)
    | TakeId(task: TaskId)
    | Insert(task: TaskId, request: Request, now: string)
    | InsertHandle(task: TaskId)
    | Stop(task: TaskId, target: U64)
    | Delete(task: TaskId, target: U64)
    | Find(task: TaskId, target: U64)
    | Clear(task: TaskId)
    | Respawn(task: TaskId, pid: Pid)
    | SpawnFails(task: TaskId)
    | Reconcile(task: TaskId)
    | Finish(task: TaskId)
    | Dies(pid: Pid)

  function SetTask(s: Sys, t: TaskId, task: Task): Sys {
    s.(tasks := s.tasks[t := task])
  }

  function EndTask(s: Sys, t: TaskId): Sys {
    s.(tasks := s.tasks - {t})
  }

  /** Takes the handle out and kills its process. */
  function Kill(s: Sys, id: U64): Sys {
    s.(processes := s.processes - {id}, live := if id in s.processes then s.live - {s.processes[id]} else s.live)
  }

  function Spawned(s: Sys, pid: Pid): Sys {
    s.(live := s.live + {pid}, spawned := s.spawned + {pid})
  }

  function Exits(s: Sys): set<U64> {
    set id | id in s.processes && s.processes[id] !in s.live
  }

  function Paused(forwards: Forwards, ids: set<U64>): Forwards {
    map id | id in forwards ::
      if id in ids && forwards[id].status == RUNNING then forwards[id].(status := PAUSED) else forwards[id]
  }

  /** The first step of a handler. */
  function StartNext(s: Sys, e: Event): Option<Sys> {
    match e
    case SpawnNew(t, pid) => if pid in s.spawned then None else Some(SetTask(Spawned(s, pid), t, Creating(pid)))
    case Stop(t, id) => Some(SetTask(Kill(s, id), t, Stopping(id)))
    case Delete(t, id) => Some(SetTask(Kill(s, id), t, Deleting(id)))
    case Find(t, id) =>
      if id !in s.forwards || s.forwards[id].status == RUNNING then None
      else Some(SetTask(s, t, Found(id, s.forwards[id])))
    case Reconcile(t) =>
      if Exits(s) == {} then None
      else Some(SetTask(s.(processes := s.processes - Exits(s)), t, Pausing(Exits(s))))
    case _ => None
  }

  function TaskNext(s: Sys, e: Event, t: TaskId, task: Task): Option<Sys> {
    match (e, task)
    case (TakeId(_), Creating(child)) =>
      if s.nextId == U64_MAX then None
      else Some(SetTask(s.(nextId := s.nextId + 1), t, Numbered(s.nextId, child)))
    case (Insert(_, request, now), Numbered(id, child)) =>
      Some(SetTask(s.(forwards := s.forwards[id := PortForward(id, request, RUNNING, now)]), t, Listed(id, child)))
    case (Insert(_, _, _), Respawned(id, existing, child)) =>
      Some(SetTask(s.(forwards := s.forwards[id := existing.(status := RUNNING)]), t, Listed(id, child)))
    case (InsertHandle(_), Listed(id, child)) => Some(EndTask(s.(processes := s.processes[id := child]), t))
    case (Clear(_), Found(id, existing)) => Some(SetTask(Kill(s, id), t, Cleared(id, existing)))
    case (Respawn(_, pid), Cleared(id, existing)) =>
      if pid in s.spawned then None else Some(SetTask(Spawned(s, pid), t, Respawned(id, existing, pid)))
    case (SpawnFails(_), Cleared(_, _)) => Some(EndTask(s, t))
    case (Finish(_), Stopping(id)) =>
      Some(EndTask(s.(forwards := if id in s.forwards then s.forwards[id := s.forwards[id].(status := PAUSED)]
                                  else s.forwards), t))
    case (Finish(_), Deleting(id)) => Some(EndTask(s.(forwards := s.forwards - {id}), t))
    case (Finish(_), Pausing(ids)) => Some(EndTask(s.(forwards := Paused(s.forwards, ids)), t))
    case _ => None
  }

  /** The state after an event, or `None` when it cannot happen. */
  function Next(s: Sys, e: Event): Option<Sys> {
    if e.Dies? then Some(s.(live := s.live - {e.pid}))
    else if e.task in s.tasks then TaskNext(s, e, e.task, s.tasks[e.task])
    else StartNext(s, e)
  }

  predicate Runs(s: Sys, id: U64) {
    id in s.forwards && s.forwards[id].status == RUNNING
  }

  /** No handler is under way, and the registry is as a restore or earlier handlers left it. */
  ghost predicate Initial(s: Sys) {
    && s.tasks == map[] && s.live == s.processes.Values <= s.spawned
    && (forall id :: id in s.processes <==> Runs(s, id))
    && (forall id :: id in s.forwards ==> id < s.nextId)
    && (forall a, b :: a in s.processes && b in s.processes && s.processes[a] == s.processes[b] ==> a == b)
  }

  ghost predicate IsRun(states: seq<Sys>, events: seq<Event>) {
    && |states| == |events| + 1
    && Initial(states[0])
    && forall i :: 0 <= i < |events| ==> Next(states[i], events[i]) == Some(states[i + 1])
  }

  // ── A handler that nothing falls into ────────────────────────────────────

  /** A creation stores a running record under a new id, and the handle of the process it spawned. */
  lemma CreateAlone(s: Sys, t: TaskId, pid: Pid, request: Request, now: string)
      returns (s1: Sys, s2: Sys, s3: Sys, s4: Sys)
    requires t !in s.tasks && pid !in s.spawned && s.nextId < 0xffff_ffff_ffff_ffff
    ensures Next(s, SpawnNew(t, pid)) == Some(s1) && Next(s1, TakeId(t)) == Some(s2)
    ensures Next(s2, Insert(t, request, now)) == Some(s3) && Next(s3, InsertHandle(t)) == Some(s4)
    ensures s4 == Sys(
      s.forwards[s.nextId := PortForward(s.nextId, request, "running", now)], s.processes[s.nextId := pid],
      s.nextId + 1, s.tasks, s.live + {pid}, s.spawned + {pid})
  {
    var numbered := Spawned(s, pid).(nextId := s.nextId + 1);
    var made := numbered.(forwards := s.forwards[s.nextId := PortForward(s.nextId, request, RUNNING, now)]);
    s1 := SetTask(Spawned(s, pid), t, Creating(pid));
    s2 := SetTask(numbered, t, Numbered(s.nextId, pid));
    s3 := SetTask(made, t, Listed(s.nextId, pid));
    s4 := made.(processes := s.processes[s.nextId := pid]);
    assert s1.tasks[t := s2.tasks[t]] == s2.tasks && s2.tasks[t := s3.tasks[t]] == s3.tasks;
    assert s3.tasks - {t} == s.tasks;
  }

  /** The process of the handle is killed, if there is a handle. */
  ghost predicate Killed(s: Sys, s': Sys, id: U64) {
    && s'.processes == s.processes - {id} && s'.nextId == s.nextId && s'.tasks == s.tasks && s'.spawned == s.spawned
    && (forall pid :: pid in s'.live <==> pid in s.live && !(id in s.processes && s.processes[id] == pid))
  }

  /** Stopping kills and pauses. */
  lemma StopAlone(s: Sys, t: TaskId, id: U64) returns (s1: Sys, s2: Sys)
    requires t !in s.tasks
    ensures Next(s, Stop(t, id)) == Some(s1) && Next(s1, Finish(t)) == Some(s2) && Killed(s, s2, id)
    ensures s2.forwards ==
      if id in s.forwards then s.forwards[id := s.forwards[id].(status := "paused")] else s.forwards
  {
    s1 := SetTask(Kill(s, id), t, Stopping(id));
    s2 := Next(s1, Finish(t)).value;
    assert s1.tasks - {t} == s.tasks;
  }

  /** Deleting kills and forgets. */
  lemma DeleteAlone(s: Sys, t: TaskId, id: U64) returns (s1: Sys, s2: Sys)
    requires t !in s.tasks
    ensures Next(s, Delete(t, id)) == Some(s1) && Next(s1, Finish(t)) == Some(s2) && Killed(s, s2, id)
    ensures s2.forwards == s.forwards - {id}
  {
    s1 := SetTask(Kill(s, id), t, Deleting(id));
    s2 := Next(s1, Finish(t)).value;
    assert s1.tasks - {t} == s.tasks;
  }

  /** A restart needs a record that does not run, and kills what its handle still leads to. */
  lemma RestartBegins(s: Sys, t: TaskId, id: U64) returns (s1: Sys, s2: Sys, cleared: Sys)
    requires t !in s.tasks
    ensures Next(s, Find(t, id)).Some? <==> id in s.forwards && s.forwards[id].status != "running"
    ensures id in s.forwards && s.forwards[id].status != "running" ==>
      && Next(s, Find(t, id)) == Some(s1) && Next(s1, Clear(t)) == Some(s2)
      && s2 == SetTask(cleared, t, Cleared(id, s.forwards[id]))
      && Killed(s, cleared, id) && cleared.forwards == s.forwards
  {
    s1, s2, cleared := s, s, Kill(s, id);
    if id in s.forwards && s.forwards[id].status != "running" {
      s1, s2 := SetTask(s, t, Found(id, s.forwards[id])), SetTask(cleared, t, Cleared(id, s.forwards[id]));
      assert s1.tasks[t := s2.tasks[t]] == s2.tasks;
    }
  }

  /** Then it ends with the record as it was read but running, and the handle of a new process, or with neither. */
  lemma RestartEnds(cleared: Sys, t: TaskId, existing: PortForward, id: U64, pid: Pid, request: Request, now: string)
      returns (s3: Sys, s4: Sys, s5: Sys)
    requires t !in cleared.tasks && pid !in cleared.spawned
    ensures var s2 := SetTask(cleared, t, Cleared(id, existing));
      Next(s2, SpawnFails(t)) == Some(cleared) && Next(s2, Respawn(t, pid)) == Some(s3)
    ensures Next(s3, Insert(t, request, now)) == Some(s4) && Next(s4, InsertHandle(t)) == Some(s5)
    ensures s5 == Sys(
      cleared.forwards[id := existing.(status := "running")], cleared.processes[id := pid], cleared.nextId,
      cleared.tasks, cleared.live + {pid}, cleared.spawned + {pid})
  {
    var s2, up := SetTask(cleared, t, Cleared(id, existing)), Spawned(cleared, pid);
    var made := up.(forwards := cleared.forwards[id := existing.(status := RUNNING)]);
    s3, s4 := SetTask(up, t, Respawned(id, existing, pid)), SetTask(made, t, Listed(id, pid));
    s5 := made.(processes := cleared.processes[id := pid]);
    assert s2.tasks[t := s3.tasks[t]] == s3.tasks && s3.tasks[t := s4.tasks[t]] == s4.tasks;
    assert s2.tasks - {t} == cleared.tasks && s4.tasks - {t} == cleared.tasks;
  }

  /** Handles of processes that are gone are dropped, and their running records paused. */
  lemma ReconcileAlone(s: Sys, t: TaskId) returns (s1: Sys, s2: Sys)
    requires t !in s.tasks && exists id :: id in s.processes && s.processes[id] !in s.live
    ensures Next(s, Reconcile(t)) == Some(s1) && Next(s1, Finish(t)) == Some(s2)
    ensures s2.nextId == s.nextId && s2.tasks == s.tasks && s2.live == s.live && s2.spawned == s.spawned
    ensures forall id :: id in s2.processes <==> id in s.processes && s.processes[id] in s.live
    ensures forall id :: id in s2.processes ==> s2.processes[id] == s.processes[id]
    ensures s2.forwards.Keys == s.forwards.Keys && forall id :: id in s.forwards ==>
      s2.forwards[id] ==
        if id in s.processes && s.processes[id] !in s.live && s.forwards[id].status == "running" then
          s.forwards[id].(status := "paused")
        else s.forwards[id]
  {
    var gone :| gone in s.processes && s.processes[gone] !in s.live;
    assert gone in Exits(s);
    s1 := SetTask(s.(processes := s.processes - Exits(s)), t, Pausing(Exits(s)));
    s2 := Next(s1, Finish(t)).value;
    assert s1.tasks - {t} == s.tasks;
  }

  // ── Records and handles ──────────────────────────────────────────────────

  /** The forwards that a handler works on. */
  function WorksOn(task: Task): set<U64> {
    match task
    case Creating(_) => {}
    case Pausing(ids) => ids
    case _ => {task.id}
  }

  /** Nobody else works on the forward. */
  predicate Alone(s: Sys, t: TaskId, id: U64) {
    forall other :: other in s.tasks && other != t ==> id !in WorksOn(s.tasks[other])
  }

  predicate Idle(s: Sys, id: U64) {
    forall t :: t in s.tasks ==> id !in WorksOn(s.tasks[t])
  }

  /** Forwards that no handler works on have a handle exactly if they run. */
  ghost predicate IdleConsistent(s: Sys) {
    forall id :: Idle(s, id) ==> (id in s.processes <==> Runs(s, id))
  }

  /**
   * What the last step of a handler could check, under the lock that it holds, when nobody else works
   * on the forward: that the map which it wrote before is still as it left it.
   */
  predicate EndsWell(s: Sys, e: Event) {
    !e.Dies? && e.task in s.tasks ==>
      var task := s.tasks[e.task];
      match (e, task)
      case (InsertHandle(_), Listed(id, _)) => Alone(s, e.task, id) ==> Runs(s, id)
      case (SpawnFails(_), Cleared(id, _)) => Alone(s, e.task, id) ==> (id in s.processes <==> Runs(s, id))
      case (Finish(_), Stopping(id)) => Alone(s, e.task, id) ==> id !in s.processes
      case (Finish(_), Deleting(id)) => Alone(s, e.task, id) ==> id !in s.processes
      case (Finish(_), Pausing(ids)) => forall id :: id in ids && Alone(s, e.task, id) ==> id !in s.processes
      case _ => true
  }

  lemma OthersStay(s: Sys, e: Event, t: TaskId)
    requires Next(s, e).Some? && (e.Dies? || e.task != t)
    ensures var s' := Next(s, e).value;
      (t in s'.tasks <==> t in s.tasks) && (t in s.tasks ==> s'.tasks[t] == s.tasks[t])
  {
  }

  /** What the handler of an event works on, before and after it. */
  lemma IdleAfter(s: Sys, e: Event, id: U64)
    requires Next(s, e).Some? && !e.Dies?
    ensures var s' := Next(s, e).value;
      Idle(s', id) <==> Alone(s, e.task, id) && (e.task in s'.tasks ==> id !in WorksOn(s'.tasks[e.task]))
  {
    var s' := Next(s, e).value;
    forall other | other != e.task
      ensures (other in s'.tasks <==> other in s.tasks) && (other in s.tasks ==> s'.tasks[other] == s.tasks[other])
    {
      OthersStay(s, e, other);
    }
    hide Next, WorksOn;
  }

  /** A step that goes on keeps its forward, and changes nothing about others. */
  lemma MiddleStep(s: Sys, e: Event, id: U64)
    requires Next(s, e).Some? && !e.Dies? && e.task in s.tasks && e.task in Next(s, e).value.tasks
    requires id !in WorksOn(Next(s, e).value.tasks[e.task])
    ensures id !in WorksOn(s.tasks[e.task])
    ensures var s' := Next(s, e).value; (id in s'.processes <==> id in s.processes) && (Runs(s', id) <==> Runs(s, id))
  {
    hide Paused, Alone;
  }

  lemma EndStep(s: Sys, e: Event)
    requires IdleConsistent(s) && Next(s, e).Some? && !e.Dies? && e.task in s.tasks
    ensures IdleConsistent(Next(s, e).value) <==> EndsWell(s, e)
  {
    var t, s' := e.task, Next(s, e).value;
    forall id ensures Idle(s', id) <==> Alone(s, t, id) && (t in s'.tasks ==> id !in WorksOn(s'.tasks[t])) {
      IdleAfter(s, e, id);
    }
    if t in s'.tasks {
      hide Next, EndsWell, WorksOn;
      forall id | Idle(s', id) ensures id in s'.processes <==> Runs(s', id) {
        MiddleStep(s, e, id);
        assert Idle(s, id);
      }
      EndsWellInTheMiddle(s, e);
    } else {
      LastStep(s, e);
    }
  }

  lemma EndsWellInTheMiddle(s: Sys, e: Event)
    requires Next(s, e).Some? && !e.Dies? && e.task in s.tasks && e.task in Next(s, e).value.tasks
    ensures EndsWell(s, e)
  {
    hide Paused, Alone;
  }

  lemma LastStep(s: Sys, e: Event)
    requires IdleConsistent(s) && Next(s, e).Some? && !e.Dies? && e.task in s.tasks
    requires e.task !in Next(s, e).value.tasks
    requires forall id :: Idle(Next(s, e).value, id) <==> Alone(s, e.task, id)
    ensures IdleConsistent(Next(s, e).value) <==> EndsWell(s, e)
  {
    var t, task, s' := e.task, s.tasks[e.task], Next(s, e).value;
    assert |RUNNING| != |PAUSED|;
    forall id ensures Idle(s, id) <==> Alone(s, t, id) && id !in WorksOn(task) {
    }
    hide Idle, Alone;
    forall id | Alone(s, t, id) && id !in WorksOn(task)
      ensures (id in s'.processes <==> id in s.processes) && (Runs(s', id) <==> Runs(s, id))
    {
    }
  }

  lemma StartStep(s: Sys, e: Event)
    requires IdleConsistent(s) && Next(s, e).Some? && (e.Dies? || e.task !in s.tasks)
    ensures IdleConsistent(Next(s, e).value)
  {
    var s' := Next(s, e).value;
    if !e.Dies? {
      assert forall other :: other in s.tasks ==> other in s'.tasks && s'.tasks[other] == s.tasks[other];
    }
    forall id | Idle(s', id) ensures Idle(s, id) && (id in s'.processes <==> id in s.processes) {
      assert !e.Dies? ==> e.task in s'.tasks && id !in WorksOn(s'.tasks[e.task]);
    }
  }

  ghost predicate AllEndWell(states: seq<Sys>, events: seq<Event>)
    requires |states| == |events| + 1
  {
    forall i :: 0 <= i < |events| ==> EndsWell(states[i], events[i])
  }

  lemma Step(s: Sys, e: Event)
    requires IdleConsistent(s) && Next(s, e).Some?
    ensures IdleConsistent(Next(s, e).value) <==> EndsWell(s, e)
  {
    if e.Dies? || e.task !in s.tasks {
      StartStep(s, e);
      hide Next, IdleConsistent;
    } else {
      EndStep(s, e);
      hide *;
    }
  }

  lemma {:induction false} EndingWellKeeps(states: seq<Sys>, events: seq<Event>, n: nat)
    requires IsRun(states, events) && n <= |events| && AllEndWell(states, events)
    ensures IdleConsistent(states[n])
  {
    if n == 0 {
    } else {
      hide Next, Initial, IdleConsistent, EndsWell;
      EndingWellKeeps(states, events, n - 1);
      assert Next(states[n - 1], events[n - 1]) == Some(states[n - 1 + 1]);
      Step(states[n - 1], events[n - 1]);
    }
  }

  /**
   * The exact condition, over all interleavings: every forward that no handler works on has a handle
   * exactly if it runs, in all states, if and only if every handler ends well.
   */
  lemma IdleForwardsAreConsistentExactly(states: seq<Sys>, events: seq<Event>)
    requires IsRun(states, events)
    ensures (forall n :: 0 <= n <= |events| ==> IdleConsistent(states[n])) <==> AllEndWell(states, events)
  {
    hide Next, Initial, IdleConsistent, EndsWell;
    if AllEndWell(states, events) {
      forall n | 0 <= n <= |events| ensures IdleConsistent(states[n]) {
        EndingWellKeeps(states, events, n);
      }
    } else {
      var n :| 0 <= n < |events| && !EndsWell(states[n], events[n]);
      assert Next(states[n], events[n]) == Some(states[n + 1]);
      if IdleConsistent(states[n]) {
        Step(states[n], events[n]);
      }
    }
  }

  // ── One handler at a time for each forward ───────────────────────────────

  ghost predicate Exclusive(s: Sys) {
    forall a, b :: a in s.tasks && b in s.tasks && a != b ==> WorksOn(s.tasks[a]) !! WorksOn(s.tasks[b])
  }

  /** What a handler finds when nobody else works on its forward. */
  predicate Undisturbed(s: Sys, task: Task) {
    match task
    case Creating(_) => true
    case Numbered(id, _) => id < s.nextId && id !in s.forwards && id !in s.processes
    case Listed(id, _) => Runs(s, id) && id !in s.processes
    case Stopping(id) => id !in s.processes
    case Deleting(id) => id !in s.processes
    case Pausing(ids) => forall id :: id in ids ==> id !in s.processes
    case _ =>
      task.id in s.forwards && s.forwards[task.id] == task.existing && !Runs(s, task.id) && task.id !in s.processes
  }

  ghost predicate ExclusiveInv(s: Sys) {
    && IdleConsistent(s)
    && (forall id :: id in s.forwards || id in s.processes ==> id < s.nextId)
    && forall t :: t in s.tasks ==> Undisturbed(s, s.tasks[t])
  }

  predicate SameAt(s: Sys, s': Sys, id: U64) {
    && (id in s'.forwards <==> id in s.forwards) && (id in s.forwards ==> s'.forwards[id] == s.forwards[id])
    && (id in s'.processes <==> id in s.processes)
  }

  /** An event changes nothing about forwards that its handler does not work on. */
  lemma Frame(s: Sys, e: Event, id: U64)
    requires Next(s, e).Some?
    requires !e.Dies? && e.task in s.tasks ==> id !in WorksOn(s.tasks[e.task])
    requires !e.Dies? && e.task in Next(s, e).value.tasks ==> id !in WorksOn(Next(s, e).value.tasks[e.task])
    ensures SameAt(s, Next(s, e).value, id)
  {
  }

  lemma SameMeansUndisturbed(s: Sys, s': Sys, task: Task)
    requires Undisturbed(s, task) && s.nextId <= s'.nextId && forall id :: id in WorksOn(task) ==> SameAt(s, s', id)
    ensures Undisturbed(s', task)
  {
    if task.Pausing? {
      assert forall id :: id in task.ids ==> SameAt(s, s', id);
    } else {
      assert !task.Creating? ==> SameAt(s, s', task.id);
    }
  }

  lemma OthersUndisturbed(s: Sys, e: Event, other: TaskId)
    requires Exclusive(s) && Next(s, e).Some? && Exclusive(Next(s, e).value)
    requires other in s.tasks && Undisturbed(s, s.tasks[other]) && (e.Dies? || e.task != other)
    ensures Undisturbed(Next(s, e).value, s.tasks[other])
  {
    var s', task := Next(s, e).value, s.tasks[other];
    OthersStay(s, e, other);
    hide Next, Undisturbed;
    forall id | id in WorksOn(task) ensures SameAt(s, s', id) {
      Frame(s, e, id);
    }
    IdsGrow(s, e);
    SameMeansUndisturbed(s, s', task);
  }

  lemma IdsGrow(s: Sys, e: Event)
    requires Next(s, e).Some?
    ensures s.nextId <= Next(s, e).value.nextId
  {
  }

  lemma GoesOnUndisturbed(s: Sys, e: Event)
    requires Next(s, e).Some? && !e.Dies? && e.task in s.tasks && Undisturbed(s, s.tasks[e.task])
    requires forall id :: id in s.forwards || id in s.processes ==> id < s.nextId
    ensures var s' := Next(s, e).value; e.task in s'.tasks ==> Undisturbed(s', s'.tasks[e.task])
    ensures EndsWell(s, e)
  {
    hide Paused, Alone;
    assert |RUNNING| != |PAUSED|;
  }

  lemma StartsUndisturbed(s: Sys, e: Event)
    requires IdleConsistent(s) && Next(s, e).Some? && Exclusive(Next(s, e).value) && !e.Dies? && e.task !in s.tasks
    ensures var s' := Next(s, e).value; e.task in s'.tasks && Undisturbed(s', s'.tasks[e.task])
  {
    var s' := Next(s, e).value;
    if e.Find? {
      forall t | t in s.tasks ensures e.target !in WorksOn(s.tasks[t]) {
        OthersStay(s, e, t);
        DisjointIn(s', t, e.task);
      }
      assert Idle(s, e.target);
    }
    hide Exclusive, IdleConsistent, Idle;
  }

  lemma DisjointIn(s: Sys, a: TaskId, b: TaskId)
    requires Exclusive(s) && a in s.tasks && b in s.tasks && a != b
    ensures WorksOn(s.tasks[a]) !! WorksOn(s.tasks[b])
  {
  }

  lemma EndsWellLater(s: Sys, e: Event)
    requires e.Dies? || e.task !in s.tasks
    ensures EndsWell(s, e)
  {
  }

  lemma ExclusiveStep(s: Sys, e: Event)
    requires ExclusiveInv(s) && Exclusive(s) && Next(s, e).Some? && Exclusive(Next(s, e).value)
    ensures ExclusiveInv(Next(s, e).value) && EndsWell(s, e)
  {
    var s' := Next(s, e).value;
    Step(s, e);
    IdsStayBelow(s, e);
    hide Next, IdleConsistent, Exclusive, EndsWell, Undisturbed;
    if !e.Dies? && e.task in s.tasks {
      GoesOnUndisturbed(s, e);
    } else if !e.Dies? {
      StartsUndisturbed(s, e);
      EndsWellLater(s, e);
    } else {
      EndsWellLater(s, e);
    }
    forall t | t in s'.tasks ensures Undisturbed(s', s'.tasks[t]) {
      if e.Dies? || e.task != t {
        OthersStay(s, e, t);
        OthersUndisturbed(s, e, t);
      }
    }
  }

  lemma IdsStayBelow(s: Sys, e: Event)
    requires ExclusiveInv(s) && Next(s, e).Some?
    ensures var s' := Next(s, e).value; forall id :: id in s'.forwards || id in s'.processes ==> id < s'.nextId
  {
    hide IdleConsistent;
    assert !e.Dies? && e.task in s.tasks ==> Undisturbed(s, s.tasks[e.task]);
  }

  lemma {:induction false} ExclusiveRun(states: seq<Sys>, events: seq<Event>, n: nat)
    requires IsRun(states, events) && n <= |events| && forall i :: 0 <= i <= n ==> Exclusive(states[i])
    ensures ExclusiveInv(states[n])
  {
    if n == 0 {
      assert ExclusiveInv(states[0]);
    } else {
      hide Next, Initial, ExclusiveInv, Exclusive, EndsWell;
      ExclusiveRun(states, events, n - 1);
      assert Next(states[n - 1], events[n - 1]) == Some(states[n - 1 + 1]);
      ExclusiveStep(states[n - 1], events[n - 1]);
    }
  }

  /**
   * If no two handlers ever work on the same forward at once, every handler ends well; and a restart
   * brings back no record that was deleted or changed since it was read.
   */
  lemma ExclusiveHandlersEndWell(states: seq<Sys>, events: seq<Event>, n: nat)
    requires IsRun(states, events) && n < |events| && forall i :: 0 <= i <= |events| ==> Exclusive(states[i])
    ensures EndsWell(states[n], events[n]) && IdleConsistent(states[n])
    ensures var s, e := states[n], events[n];
      e.Insert? && e.task in s.tasks && s.tasks[e.task].Respawned? ==>
        var task := s.tasks[e.task]; task.id in s.forwards && s.forwards[task.id] == task.existing
  {
    ExclusiveRun(states, events, n);
    assert Next(states[n], events[n]) == Some(states[n + 1]);
    hide Next, IdleConsistent, EndsWell, Exclusive, Initial;
    ExclusiveStep(states[n], events[n]);
  }

  // ── Processes without a handle ───────────────────────────────────────────

  function Held(task: Task): set<Pid> {
    match task
    case Creating(child) => {child}
    case Numbered(_, child) => {child}
    case Respawned(_, _, child) => {child}
    case Listed(_, child) => {child}
    case _ => {}
  }

  ghost predicate Owned(s: Sys, p: Pid) {
    || (exists id :: id in s.processes && s.processes[id] == p)
    || (exists t :: t in s.tasks && p in Held(s.tasks[t]))
  }

  /** Every running `kubectl` has a handle, or a handler that will store one. */
  ghost predicate NothingLeaks(s: Sys) {
    forall p :: p in s.live ==> Owned(s, p)
  }

  /** A handle is inserted over one whose process still runs, and which is dropped without a kill. */
  predicate Replaces(s: Sys, e: Event) {
    && e.InsertHandle? && e.task in s.tasks && s.tasks[e.task].Listed?
    && s.tasks[e.task].id in s.processes && s.processes[s.tasks[e.task].id] in s.live
  }

  /** A process has one owner. */
  ghost predicate PidInv(s: Sys) {
    && s.processes.Values <= s.spawned
    && (forall a, b :: a in s.processes && b in s.processes && s.processes[a] == s.processes[b] ==> a == b)
    && (forall t :: t in s.tasks ==> Held(s.tasks[t]) <= s.spawned)
    && (forall t, id :: t in s.tasks && id in s.processes ==> s.processes[id] !in Held(s.tasks[t]))
    && (forall a, b :: a in s.tasks && b in s.tasks && a != b ==> Held(s.tasks[a]) !! Held(s.tasks[b]))
  }

  /** Handles only go, and the handler of the step holds no other child than before. */
  ghost predicate OnlyDrops(s: Sys, s': Sys, t: TaskId) {
    && s'.spawned == s.spawned
    && (forall id :: id in s'.processes ==> id in s.processes && s'.processes[id] == s.processes[id])
    && (forall other :: other in s'.tasks && other != t ==> other in s.tasks && s'.tasks[other] == s.tasks[other])
    && (t in s'.tasks && Held(s'.tasks[t]) != {} ==> t in s.tasks && Held(s'.tasks[t]) == Held(s.tasks[t]))
  }

  lemma DropKeepsPids(s: Sys, s': Sys, t: TaskId)
    requires PidInv(s) && OnlyDrops(s, s', t)
    ensures PidInv(s')
  {
    hide Held;
  }

  lemma SpawnKeepsPids(s: Sys, t: TaskId, task: Task, pid: Pid)
    requires PidInv(s) && pid !in s.spawned && Held(task) == {pid}
    ensures PidInv(SetTask(Spawned(s, pid), t, task))
  {
    hide Held;
  }

  lemma MoveKeepsPids(s: Sys, t: TaskId, id: U64, child: Pid)
    requires PidInv(s) && t in s.tasks && Held(s.tasks[t]) == {child}
    ensures PidInv(EndTask(s.(processes := s.processes[id := child]), t))
  {
    hide Held;
  }

  lemma MostStepsDrop(s: Sys, e: Event)
    requires Next(s, e).Some? && !e.SpawnNew? && !e.Respawn? && !e.InsertHandle?
    ensures OnlyDrops(s, Next(s, e).value, if e.Dies? then 0 else e.task)
  {
    hide Paused;
  }

  lemma NewPidStep(s: Sys, e: Event)
    requires PidInv(s) && Next(s, e).Some? && (e.SpawnNew? || e.Respawn?)
    ensures PidInv(Next(s, e).value)
  {
    hide PidInv;
    if e.SpawnNew? {
      SpawnKeepsPids(s, e.task, Creating(e.pid), e.pid);
    } else {
      var task := s.tasks[e.task];
      SpawnKeepsPids(s, e.task, Respawned(task.id, task.existing, e.pid), e.pid);
    }
  }

  lemma PidStep(s: Sys, e: Event)
    requires PidInv(s) && Next(s, e).Some?
    ensures PidInv(Next(s, e).value)
  {
    hide PidInv;
    if e.SpawnNew? || e.Respawn? {
      hide Next;
      NewPidStep(s, e);
    } else if e.InsertHandle? {
      MoveKeepsPids(s, e.task, s.tasks[e.task].id, s.tasks[e.task].child);
    } else {
      hide Next, OnlyDrops;
      MostStepsDrop(s, e);
      DropKeepsPids(s, Next(s, e).value, if e.Dies? then 0 else e.task);
    }
  }

  /** An owner is kept by every step that does not put another handle in its place. */
  lemma OwnerStays(s: Sys, e: Event, p: Pid)
    requires Next(s, e).Some? && !Replaces(s, e) && p in s.live && p in Next(s, e).value.live && Owned(s, p)
    ensures Owned(Next(s, e).value, p)
  {
    hide Paused;
    var s' := Next(s, e).value;
    if id :| id in s.processes && s.processes[id] == p {
      assert id in s'.processes && s'.processes[id] == p;
    } else {
      var t :| t in s.tasks && p in Held(s.tasks[t]);
      if e.InsertHandle? && e.task == t {
        assert s'.processes[s.tasks[t].id] == p;
      } else {
        assert t in s'.tasks && p in Held(s'.tasks[t]);
      }
    }
  }

  lemma NewIsOwned(s: Sys, e: Event, p: Pid)
    requires Next(s, e).Some? && p in Next(s, e).value.live && p !in s.live
    ensures Owned(Next(s, e).value, p)
  {
    hide Paused;
    assert e.SpawnNew? || e.Respawn?;
    assert p in Held(Next(s, e).value.tasks[e.task]);
  }

  lemma ReplacedIsLost(s: Sys, e: Event)
    requires PidInv(s) && Next(s, e).Some? && Replaces(s, e)
    ensures !NothingLeaks(Next(s, e).value)
  {
    var task := s.tasks[e.task];
    var p := s.processes[task.id];
    assert p !in Held(task);
    assert p in Next(s, e).value.live && !Owned(Next(s, e).value, p);
  }

  lemma LeakStep(s: Sys, e: Event)
    requires PidInv(s) && NothingLeaks(s) && Next(s, e).Some?
    ensures NothingLeaks(Next(s, e).value) <==> !Replaces(s, e)
  {
    if Replaces(s, e) {
      ReplacedIsLost(s, e);
    } else {
      hide Next, Owned, Replaces, PidInv;
      forall p | p in Next(s, e).value.live ensures Owned(Next(s, e).value, p) {
        if p in s.live {
          OwnerStays(s, e, p);
        } else {
          NewIsOwned(s, e, p);
        }
      }
    }
  }

  lemma {:induction false} PidRun(states: seq<Sys>, events: seq<Event>, n: nat)
    requires IsRun(states, events) && n <= |events|
    ensures PidInv(states[n])
    ensures (forall i :: 0 <= i < n ==> !Replaces(states[i], events[i])) ==> NothingLeaks(states[n])
  {
    if n == 0 {
      assert forall p :: p in states[0].live ==> p in states[0].processes.Values;
    } else {
      hide Next, Initial, PidInv, NothingLeaks, Replaces;
      PidRun(states, events, n - 1);
      assert Next(states[n - 1], events[n - 1]) == Some(states[n - 1 + 1]);
      PidStep(states[n - 1], events[n - 1]);
      if NothingLeaks(states[n - 1]) {
        LeakStep(states[n - 1], events[n - 1]);
      }
    }
  }

  /**
   * The exact condition, over all interleavings: no `kubectl` is ever left running without a handle or
   * a handler that holds it, if and only if no handle is inserted over one whose process still runs.
   */
  lemma NothingLeaksExactly(states: seq<Sys>, events: seq<Event>)
    requires IsRun(states, events)
    ensures (forall n :: 0 <= n <= |events| ==> NothingLeaks(states[n])) <==>
      forall n :: 0 <= n < |events| ==> !Replaces(states[n], events[n])
  {
    hide Next, Initial, NothingLeaks, Replaces, PidInv;
    if forall n :: 0 <= n < |events| ==> !Replaces(states[n], events[n]) {
      forall n | 0 <= n <= |events| ensures NothingLeaks(states[n]) {
        PidRun(states, events, n);
      }
    } else {
      var n :| 0 <= n < |events| && Replaces(states[n], events[n]);
      PidRun(states, events, n);
      assert Next(states[n], events[n]) == Some(states[n + 1]);
      ReplacedIsLost(states[n], events[n]);
    }
  }

  /** With one handler at a time for each forward nothing leaks. */
  lemma ExclusiveHandlersLeakNothing(states: seq<Sys>, events: seq<Event>, n: nat)
    requires IsRun(states, events) && n <= |events| && forall i :: 0 <= i <= |events| ==> Exclusive(states[i])
    ensures NothingLeaks(states[n])
  {
    hide Next, Initial, NothingLeaks, Exclusive, PidInv;
    forall i | 0 <= i < |events| ensures !Replaces(states[i], events[i]) {
      ExclusiveRun(states, events, i);
      hide IsRun;
      if events[i].InsertHandle? && events[i].task in states[i].tasks {
        assert Undisturbed(states[i], states[i].tasks[events[i].task]);
      }
    }
    NothingLeaksExactly(states, events);
  }

  // ── Two runs with handlers in each other's gaps ──────────────────────────

  const REQUEST := Request("default", "pod", "web", 8080, 80)
  const FRESH := Sys(map[], map[], 1, map[], {}, {})
  const RECORD := PortForward(1, REQUEST, RUNNING, "")

  /** A forward is created and deleted between its two inserts. */
  function GapEvent(i: nat): Event {
    match i
    case 0 => SpawnNew(0, 7)
    case 1 => TakeId(0)
    case 2 => Insert(0, REQUEST, "")
    case 3 => Delete(1, 1)
    case 4 => Finish(1)
    case _ => InsertHandle(0)
  }

  function GapState(i: nat): Sys {
    var up := Sys(map[], map[], 2, map[0 := Listed(1, 7)], {7}, {7});
    match i
    case 0 => FRESH
    case 1 => up.(nextId := 1, tasks := map[0 := Creating(7)])
    case 2 => up.(tasks := map[0 := Numbered(1, 7)])
    case 3 => up.(forwards := map[1 := RECORD])
    case 4 => up.(forwards := map[1 := RECORD], tasks := map[0 := Listed(1, 7), 1 := Deleting(1)])
    case 5 => up
    case _ => up.(processes := map[1 := 7], tasks := map[])
  }

  lemma GapStep(i: nat)
    requires i < 6
    ensures Next(GapState(i), GapEvent(i)) == Some(GapState(i + 1))
  {
    var n, t := Next(GapState(i), GapEvent(i)), GapState(i + 1);
    assert n.Some?;
    assert n.value.tasks == t.tasks;
    assert n.value.forwards == t.forwards && n.value.processes == t.processes;
    assert n.value.live == t.live && n.value.spawned == t.spawned;
  }

  /** The `kubectl` of a forward that was deleted while it was created runs on, and no record shows it. */
  lemma DeletedForwardRuns() returns (states: seq<Sys>, events: seq<Event>)
    ensures IsRun(states, events) && |events| == 6
    ensures var s := states[6]; s.tasks == map[] && s.forwards == map[] && s.processes == map[1 := 7] && s.live == {7}
  {
    events := seq(6, i requires 0 <= i => GapEvent(i));
    states := seq(7, i requires 0 <= i => GapState(i));
    assert states[0] == FRESH && states[6] == GapState(6);
    hide Next, GapEvent, GapState;
    forall i | 0 <= i < 6 ensures Next(states[i], events[i]) == Some(states[i + 1]) {
      GapStep(i);
    }
  }

  const SLEEPING := RECORD.(status := PAUSED)
  const ONE_PAUSED := Sys(map[1 := SLEEPING], map[], 2, map[], {}, {})

  /** A paused forward is deleted while it is restarted. */
  function BackEvent(i: nat): Event {
    match i
    case 0 => Find(0, 1)
    case 1 => Clear(0)
    case 2 => Delete(1, 1)
    case 3 => Finish(1)
    case 4 => Respawn(0, 7)
    case 5 => Insert(0, REQUEST, "")
    case _ => InsertHandle(0)
  }

  function BackState(i: nat): Sys {
    var up := Sys(map[1 := RECORD], map[], 2, map[0 := Listed(1, 7)], {7}, {7});
    match i
    case 0 => ONE_PAUSED
    case 1 => ONE_PAUSED.(tasks := map[0 := Found(1, SLEEPING)])
    case 2 => ONE_PAUSED.(tasks := map[0 := Cleared(1, SLEEPING)])
    case 3 => ONE_PAUSED.(tasks := map[0 := Cleared(1, SLEEPING), 1 := Deleting(1)])
    case 4 => ONE_PAUSED.(forwards := map[], tasks := map[0 := Cleared(1, SLEEPING)])
    case 5 => up.(forwards := map[], tasks := map[0 := Respawned(1, SLEEPING, 7)])
    case 6 => up
    case _ => up.(processes := map[1 := 7], tasks := map[])
  }

  lemma BackStep(i: nat)
    requires i < 7
    ensures Next(BackState(i), BackEvent(i)) == Some(BackState(i + 1))
  {
    assert |RUNNING| != |PAUSED|;
    hide Paused, Exits;
    var n, t := Next(BackState(i), BackEvent(i)), BackState(i + 1);
    assert n.Some?;
    assert n.value.tasks == t.tasks;
    assert n.value.forwards == t.forwards && n.value.processes == t.processes;
    assert n.value.live == t.live && n.value.spawned == t.spawned;
  }

  lemma BackEndsWell(i: nat)
    requires i < 7
    ensures EndsWell(BackState(i), BackEvent(i))
  {
    if i == 3 {
      assert !Alone(BackState(3), 1, 1) by {
        assert 0 in BackState(3).tasks;
      }
    }
  }

  /** A restart brings back the forward that was deleted meanwhile: consistent, but not deleted. */
  lemma RestartOutlivesDelete() returns (states: seq<Sys>, events: seq<Event>)
    ensures IsRun(states, events) && |events| == 7 && events[2] == Delete(1, 1)
    ensures states[4].forwards == map[] && states[7].tasks == map[] && states[7].forwards == map[1 := RECORD]
    ensures AllEndWell(states, events)
  {
    events := seq(7, i requires 0 <= i => BackEvent(i));
    states := seq(8, i requires 0 <= i => BackState(i));
    assert |RUNNING| != |PAUSED|;
    assert states[0] == BackState(0) && states[7] == BackState(7) && states[4] == BackState(4);
    assert events[2] == BackEvent(2);
    hide Next, BackEvent, BackState, EndsWell;
    forall i | 0 <= i < 7 ensures EndsWell(states[i], events[i]) {
      BackEndsWell(i);
    }
    forall i | 0 <= i < 7 ensures Next(states[i], events[i]) == Some(states[i + 1]) {
      BackStep(i);
    }
  }
}
