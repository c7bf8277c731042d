/**
 * The desktop supervisor as an interleaved step system: any number of restart callers, the
 * monitor thread and the exit handler share the child slot (a mutex), the shutdown flag and
 * `restart_in_progress`. One step is one critical section, one process action or one poll.
 * Which step comes next, and every outcome of a spawn or a probe, is unconstrained.
 */
module Supervisor {
  import opened Wrappers

  type Child = nat
  type Caller = nat

  /** Where a restart caller is between winning the flag and lowering it. */
  datatype CallerPc =
    | Begun                    // choosing a port
    | Stopping(child: Child)   // took the child from the slot and stops it, holding the slot's mutex
    | Emptied                  // the slot is empty: about to try the next binary
    | Probing(child: Child)    // spawned a binary; it may exit at once
    | Starting(child: Child)   // waiting for readiness and cluster verification
    | Discarding(child: Child) // not ready or not verified: stopping it
    | Ending(stored: bool)     // about to lower the flag; it has failed unless it stored its child

  datatype MonitorPc =
    | Sleeping
    | Awake                           // not shutting down
    | Looking                         // saw the restart flag down
    | BackingOff                      // saw no running child; waits before it tries for the flag
    | Restarting                      // holds the flag
    | MonitorProbing(child: Child)
    | Launched(child: Child)
    | Finishing
    | Stopped

  datatype ExitPc = Idle | Marked | ExitStopping(child: Child)

  datatype State = State(
    slot: Option<Child>,
    restarting: bool,
    shuttingDown: bool,
    callers: map<Caller, CallerPc>,
    waiting: set<Caller>,   // poll for the flag
    switching: set<Caller>, // switch clusters: a failure is followed by a restart for the previous cluster
    monitor: MonitorPc,
    exit: ExitPc,
    live: set<Child>,
    spawned: set<Child>)

  datatype Step =
    | CallerAsk(caller: Caller, switches: bool)
    | CallerGiveUp(caller: Caller)
    | CallerBegin(caller: Caller)
    | CallerTake(caller: Caller)
    | CallerStopped(caller: Caller)
    | CallerSpawn(caller: Caller, child: Child)
    | CallerProbe(caller: Caller)
    | CallerFail(caller: Caller)
    | CallerReject(caller: Caller)
    | CallerDiscarded(caller: Caller)
    | CallerStore(caller: Caller)
    | CallerEnd(caller: Caller)
    | MonitorCheckShutdown
    | MonitorCheckFlag
    | MonitorLook
    | MonitorTryBegin
    | MonitorSpawn(child: Child)
    | MonitorProbe
    | MonitorFail
    | MonitorStore
    | MonitorEnd
    | ExitMark
    | ExitTake
    | ExitStopped
    | ChildDies(child: Child)

  function SlotSet(slot: Option<Child>): set<Child> {
    if slot.Some? then {slot.value} else {}
  }

  function ExitHeld(exit: ExitPc): set<Child> {
    if exit.ExitStopping? then {exit.child} else {}
  }

  function CallerHeld(pc: CallerPc): set<Child> {
    match pc
    case Stopping(c) => {c}
    case Probing(c) => {c}
    case Starting(c) => {c}
    case Discarding(c) => {c}
    case _ => {}
  }

  function MonitorHeld(pc: MonitorPc): set<Child> {
    match pc
    case MonitorProbing(c) => {c}
    case Launched(c) => {c}
    case _ => {}
  }

  /** Nobody holds the mutex of the child slot while stopping a child. */
  predicate SlotUnlocked(s: State) {
    !s.exit.ExitStopping? && forall a :: a in s.callers ==> !s.callers[a].Stopping?
  }

  function SetCaller(s: State, a: Caller, pc: CallerPc): State {
    s.(callers := s.callers[a := pc])
  }

  function Spawn(s: State, c: Child): State {
    s.(live := s.live + {c}, spawned := s.spawned + {c})
  }

  /** A restart is over: a switch that failed waits for the flag again, to go back to the previous cluster. */
  function EndRestart(s: State, a: Caller, stored: bool): State {
    s.(callers := s.callers - {a}, switching := s.switching - {a}, restarting := false,
       waiting := if !stored && a in s.switching then s.waiting + {a} else s.waiting)
  }

  /** Before the flag is won. */
  function WaiterNext(s: State, step: Step, a: Caller): Option<State> {
    match step
    case CallerAsk(_, switches) =>
      if a in s.waiting then None
      else Some(s.(waiting := s.waiting + {a}, switching := if switches then s.switching + {a} else s.switching - {a}))
    case CallerGiveUp(_) =>
      if a !in s.waiting then None
      else if a in s.switching then Some(s.(switching := s.switching - {a}))
      else Some(s.(waiting := s.waiting - {a}))
    case CallerBegin(_) =>
      if a !in s.waiting || s.restarting then None
      else Some(SetCaller(s.(restarting := true, waiting := s.waiting - {a}), a, Begun))
    case _ => None
  }

  function CallerNext(s: State, step: Step, a: Caller): Option<State> {
    if a !in s.callers then WaiterNext(s, step, a)
    else
      match (step, s.callers[a])
      case (CallerTake(_), Begun) =>
        if !SlotUnlocked(s) then None
        else if s.slot.Some? then Some(SetCaller(s.(slot := None), a, Stopping(s.slot.value)))
        else Some(SetCaller(s, a, Emptied))
      case (CallerStopped(_), Stopping(c)) => Some(SetCaller(s.(live := s.live - {c}), a, Emptied))
      case (CallerSpawn(_, c), Emptied) =>
        if c in s.spawned then None else Some(SetCaller(Spawn(s, c), a, Probing(c)))
      case (CallerProbe(_), Probing(c)) =>
        Some(SetCaller(s, a, if c in s.live then Starting(c) else Emptied))
      case (CallerFail(_), Begun) => Some(SetCaller(s, a, Ending(false)))
      case (CallerFail(_), Emptied) => Some(SetCaller(s, a, Ending(false)))
      case (CallerReject(_), Starting(c)) => Some(SetCaller(s, a, Discarding(c)))
      case (CallerDiscarded(_), Discarding(c)) => Some(SetCaller(s.(live := s.live - {c}), a, Ending(false)))
      case (CallerStore(_), Starting(c)) =>
        if SlotUnlocked(s) then Some(SetCaller(s.(slot := Some(c)), a, Ending(true))) else None
      case (CallerEnd(_), Ending(stored)) => Some(EndRestart(s, a, stored))
      case _ => None
  }

  function MonitorNext(s: State, step: Step): Option<State> {
    match (step, s.monitor)
    case (MonitorCheckShutdown, Sleeping) => Some(s.(monitor := if s.shuttingDown then Stopped else Awake))
    case (MonitorCheckFlag, Awake) => Some(s.(monitor := if s.restarting then Sleeping else Looking))
    case (MonitorLook, Looking) =>
      if !SlotUnlocked(s) then None
      else if s.slot.Some? && s.slot.value in s.live then Some(s.(monitor := Sleeping))
      else Some(s.(slot := None, monitor := BackingOff))
    case (MonitorTryBegin, BackingOff) =>
      Some(if s.restarting then s.(monitor := Sleeping) else s.(restarting := true, monitor := Restarting))
    case (MonitorSpawn(c), Restarting) =>
      if c in s.spawned then None else Some(Spawn(s, c).(monitor := MonitorProbing(c)))
    case (MonitorProbe, MonitorProbing(c)) =>
      Some(s.(monitor := if c in s.live then Launched(c) else Restarting))
    case (MonitorFail, Restarting) => Some(s.(monitor := Finishing))
    case (MonitorStore, Launched(c)) =>
      if SlotUnlocked(s) then Some(s.(slot := Some(c), monitor := Finishing)) else None
    case (MonitorEnd, Finishing) => Some(s.(restarting := false, monitor := Sleeping))
    case _ => None
  }

  function ExitNext(s: State, step: Step): Option<State> {
    match (step, s.exit)
    case (ExitMark, Idle) => Some(s.(shuttingDown := true, exit := Marked))
    case (ExitTake, Marked) =>
      if !SlotUnlocked(s) then None
      else Some(s.(slot := None, exit := if s.slot.Some? then ExitStopping(s.slot.value) else Idle))
    case (ExitStopped, ExitStopping(c)) => Some(s.(live := s.live - {c}, exit := Idle))
    case _ => None
  }

  /** The state after a step, or `None` when the step cannot be taken. */
  function Next(s: State, step: Step): Option<State> {
    match step
    case MonitorCheckShutdown => MonitorNext(s, step)
    case MonitorCheckFlag => MonitorNext(s, step)
    case MonitorLook => MonitorNext(s, step)
    case MonitorTryBegin => MonitorNext(s, step)
    case MonitorSpawn(_) => MonitorNext(s, step)
    case MonitorProbe => MonitorNext(s, step)
    case MonitorFail => MonitorNext(s, step)
    case MonitorStore => MonitorNext(s, step)
    case MonitorEnd => MonitorNext(s, step)
    case ExitMark => ExitNext(s, step)
    case ExitTake => ExitNext(s, step)
    case ExitStopped => ExitNext(s, step)
    case ChildDies(c) => Some(s.(live := s.live - {c}))
    case _ => CallerNext(s, step, step.caller)
  }

  // ── Actors that nothing falls into ───────────────────────────────────────

  /** A caller wins the flag and stops the child of the slot, if there is one. */
  lemma RestartStops(s: State, a: Caller, switches: bool) returns (s1: State, s2: State, s3: State, emptied: State)
    requires a !in s.callers && a !in s.waiting && a !in s.switching && !s.restarting && SlotUnlocked(s)
    ensures Next(s, CallerAsk(a, switches)) == Some(s1) && Next(s1, CallerBegin(a)) == Some(s2)
    ensures Next(s2, CallerTake(a)) == Some(s3)
    ensures if s.slot.Some? then Next(s3, CallerStopped(a)) == Some(emptied) else emptied == s3
    ensures emptied == s.(
      slot := None, restarting := true, callers := s.callers[a := Emptied],
      switching := if switches then s.switching + {a} else s.switching,
      live := if s.slot.Some? then s.live - {s.slot.value} else s.live)
  {
    s1 := Next(s, CallerAsk(a, switches)).value;
    assert s1.waiting - {a} == s.waiting && s.switching - {a} == s.switching;
    s2 := Next(s1, CallerBegin(a)).value;
    assert SlotUnlocked(s2);
    s3 := Next(s2, CallerTake(a)).value;
    assert s2.callers[a := Emptied] == s.callers[a := Emptied];
    emptied := if s.slot.Some? then Next(s3, CallerStopped(a)).value else s3;
    assert s.slot.Some? ==> s3.callers[a := Emptied] == s.callers[a := Emptied];
  }

  /** A caller that waits too long gives up; a switch goes back to waiting, for the previous cluster. */
  lemma RestartGivesUp(s: State, a: Caller, switches: bool) returns (s1: State, s2: State)
    requires a !in s.callers && a !in s.waiting && a !in s.switching
    ensures Next(s, CallerAsk(a, switches)) == Some(s1) && Next(s1, CallerGiveUp(a)) == Some(s2)
    ensures s2 == if switches then s.(waiting := s.waiting + {a}) else s
    ensures switches ==> Next(s2, CallerGiveUp(a)) == Some(s)
  {
    s1 := Next(s, CallerAsk(a, switches)).value;
    s2 := Next(s1, CallerGiveUp(a)).value;
    assert s.switching + {a} - {a} == s.switching && s.switching - {a} == s.switching;
    assert s.waiting + {a} - {a} == s.waiting;
  }

  /** Then it spawns a binary, whose child may stay alive. */
  lemma RestartSpawns(s: State, a: Caller, c: Child) returns (s1: State, s2: State)
    requires a in s.callers && s.callers[a] == Emptied && c !in s.spawned
    ensures Next(s, CallerSpawn(a, c)) == Some(s1) && Next(s1, CallerProbe(a)) == Some(s2)
    ensures s2 == s.(callers := s.callers[a := Starting(c)], live := s.live + {c}, spawned := s.spawned + {c})
  {
    s1, s2 := Next(s, CallerSpawn(a, c)).value, Next(Next(s, CallerSpawn(a, c)).value, CallerProbe(a)).value;
  }

  /** A child that is ready and verified gets into the slot, and the flag goes down. */
  lemma RestartStores(s: State, a: Caller, c: Child) returns (s1: State, s2: State)
    requires a in s.callers && s.callers[a] == Starting(c) && SlotUnlocked(s)
    ensures Next(s, CallerStore(a)) == Some(s1) && Next(s1, CallerEnd(a)) == Some(s2)
    ensures s2 == s.(
      slot := Some(c), restarting := false, callers := s.callers - {a}, switching := s.switching - {a})
  {
    s1 := Next(s, CallerStore(a)).value;
    s2 := Next(s1, CallerEnd(a)).value;
    assert s1.callers - {a} == s.callers - {a};
  }

  /** Any other is stopped. A switch then waits for the flag again; anything else is over. */
  lemma RestartDiscards(s: State, a: Caller, c: Child) returns (s1: State, s2: State, s3: State)
    requires a in s.callers && s.callers[a] == Starting(c)
    ensures Next(s, CallerReject(a)) == Some(s1) && Next(s1, CallerDiscarded(a)) == Some(s2)
    ensures Next(s2, CallerEnd(a)) == Some(s3)
    ensures s3 == s.(
      live := s.live - {c}, restarting := false, callers := s.callers - {a}, switching := s.switching - {a},
      waiting := if a in s.switching then s.waiting + {a} else s.waiting)
  {
    s1 := Next(s, CallerReject(a)).value;
    s2 := Next(s1, CallerDiscarded(a)).value;
    s3 := Next(s2, CallerEnd(a)).value;
    assert s2.callers - {a} == s.callers - {a};
  }

  /** The monitor goes back to sleep at a running child, and empties the slot of one that is gone. */
  lemma MonitorLooks(s: State) returns (s1: State, s2: State, s3: State)
    requires s.monitor == Sleeping && !s.restarting && !s.shuttingDown && SlotUnlocked(s)
    ensures Next(s, MonitorCheckShutdown) == Some(s1) && Next(s1, MonitorCheckFlag) == Some(s2)
    ensures Next(s2, MonitorLook) == Some(s3)
    ensures s3 == if s.slot.Some? && s.slot.value in s.live then s else s.(slot := None, monitor := BackingOff)
  {
    s1, s2 := s.(monitor := Awake), s.(monitor := Looking);
    assert SlotUnlocked(s2);
    s3 := Next(s2, MonitorLook).value;
  }

  /** After the back-off it spawns a binary, with the flag up, unless somebody restarts. */
  lemma MonitorSpawns(s: State, c: Child) returns (s1: State, s2: State, s3: State)
    requires s.monitor == BackingOff && c !in s.spawned
    ensures Next(s, MonitorTryBegin) == Some(s1)
    ensures if s.restarting then s1 == s.(monitor := Sleeping)
      else
        && Next(s1, MonitorSpawn(c)) == Some(s2) && Next(s2, MonitorProbe) == Some(s3)
        && s3 == s.(restarting := true, monitor := Launched(c), live := s.live + {c}, spawned := s.spawned + {c})
  {
    s1, s2, s3 := Next(s, MonitorTryBegin).value, s, s;
    if !s.restarting {
      s2 := Next(s1, MonitorSpawn(c)).value;
      s3 := Next(s2, MonitorProbe).value;
    }
  }

  /** The child gets into the slot, and the flag goes down. */
  lemma MonitorStores(s: State, c: Child) returns (s1: State, s2: State)
    requires s.monitor == Launched(c) && SlotUnlocked(s)
    ensures Next(s, MonitorStore) == Some(s1) && Next(s1, MonitorEnd) == Some(s2)
    ensures s2 == s.(slot := Some(c), restarting := false, monitor := Sleeping)
  {
    s1 := Next(s, MonitorStore).value;
    s2 := Next(s1, MonitorEnd).value;
  }

  /** The exit handler sets the shutdown flag and stops the child of the slot, if there is one. */
  lemma ExitAlone(s: State) returns (s1: State, s2: State, after: State)
    requires s.exit == Idle && SlotUnlocked(s)
    ensures Next(s, ExitMark) == Some(s1) && Next(s1, ExitTake) == Some(s2)
    ensures if s.slot.Some? then Next(s2, ExitStopped) == Some(after) else after == s2
    ensures after == s.(
      slot := None, shuttingDown := true, live := if s.slot.Some? then s.live - {s.slot.value} else s.live)
  {
    s1 := Next(s, ExitMark).value;
    assert SlotUnlocked(s1);
    s2 := Next(s1, ExitTake).value;
    after := if s.slot.Some? then Next(s2, ExitStopped).value else s2;
  }

  /** The state the setup leaves: its own child in the slot, or none if it could not start one. */
  predicate Initial(s: State) {
    && !s.restarting && !s.shuttingDown
    && s.callers == map[] && s.waiting == s.switching == {} && s.monitor == Sleeping && s.exit == Idle
    && s.live == s.spawned == SlotSet(s.slot)
  }

  /** `states` is a run that takes `steps` from an initial state. */
  ghost predicate IsRun(states: seq<State>, steps: seq<Step>) {
    && |states| == |steps| + 1
    && Initial(states[0])
    && forall i :: 0 <= i < |steps| ==> Next(states[i], steps[i]) == Some(states[i + 1])
  }

  // ── The restart flag ─────────────────────────────────────────────────────

  datatype Actor = CallerActor(caller: Caller) | MonitorActor

  predicate MonitorOwns(pc: MonitorPc) {
    pc.Restarting? || pc.MonitorProbing? || pc.Launched? || pc.Finishing?
  }

  /** The actors that are between begin and end of a restart. */
  function Owners(s: State): set<Actor> {
    (set a | a in s.callers :: CallerActor(a)) + (if MonitorOwns(s.monitor) then {MonitorActor} else {})
  }

  ghost predicate FlagInv(s: State) {
    && (forall a, b :: a in s.callers && b in s.callers ==> a == b)
    && (MonitorOwns(s.monitor) ==> s.callers == map[])
    && (s.restarting <==> MonitorOwns(s.monitor) || s.callers != map[])
    && (forall a :: a in s.waiting ==> a !in s.callers)
  }

  predicate IsCallerStep(step: Step) {
    || step.CallerAsk? || step.CallerGiveUp? || step.CallerBegin? || step.CallerTake? || step.CallerStopped?
    || step.CallerSpawn? || step.CallerProbe? || step.CallerFail? || step.CallerReject? || step.CallerDiscarded?
    || step.CallerStore? || step.CallerEnd?
  }

  predicate IsSharedStep(step: Step) {
    step.ExitMark? || step.ExitTake? || step.ExitStopped? || step.ChildDies?
  }

  lemma CallerFlagStep(s: State, step: Step, a: Caller, s': State)
    requires FlagInv(s) && CallerNext(s, step, a) == Some(s')
    ensures FlagInv(s')
  {
    if a in s.callers {
      assert forall b :: b in s.callers ==> b == a;
      assert s'.callers == map[] || a in s'.callers;
    } else if step.CallerBegin? {
      assert s.callers == map[] && a in s'.callers;
    } else {
      assert s'.callers == s.callers;
    }
  }

  lemma MonitorFlagStep(s: State, step: Step, s': State)
    requires FlagInv(s) && MonitorNext(s, step) == Some(s')
    ensures FlagInv(s')
  {
    assert s'.callers == s.callers && s'.waiting == s.waiting;
  }

  lemma FlagStep(s: State, step: Step, s': State)
    requires FlagInv(s) && Next(s, step) == Some(s')
    ensures FlagInv(s')
  {
    if IsCallerStep(step) {
      CallerFlagStep(s, step, step.caller, s');
    } else if IsSharedStep(step) {
      assert s'.callers == s.callers && s'.waiting == s.waiting;
    } else {
      MonitorFlagStep(s, step, s');
    }
  }

  lemma {:induction false} FlagRun(states: seq<State>, steps: seq<Step>, i: nat)
    requires IsRun(states, steps) && i < |states|
    ensures FlagInv(states[i])
  {
    if i == 0 {
    } else {
      FlagRun(states, steps, i - 1);
      assert Next(states[i - 1], steps[i - 1]) == Some(states[i - 1 + 1]);
      hide *;
      FlagStep(states[i - 1], steps[i - 1], states[i]);
    }
  }

  /** In every interleaving the flag is up exactly while one actor is between begin and end. */
  lemma FlagIsExclusive(states: seq<State>, steps: seq<Step>, i: nat)
    requires IsRun(states, steps) && i < |states|
    ensures |Owners(states[i])| == if states[i].restarting then 1 else 0
  {
    FlagRun(states, steps, i);
    var s := states[i];
    if s.callers != map[] {
      var a :| a in s.callers;
      assert Owners(s) == {CallerActor(a)};
    } else if MonitorOwns(s.monitor) {
      assert Owners(s) == {MonitorActor};
    }
  }

  // ── At most one child ────────────────────────────────────────────────────

  /** A caller that has emptied the slot and not stored or dropped its own child yet. */
  predicate Replacing(pc: CallerPc) {
    !pc.Begun? && !pc.Ending?
  }

  /** The monitor has started a child that it has not stored yet. */
  predicate MonitorReplacing(pc: MonitorPc) {
    pc.MonitorProbing? || pc.Launched?
  }

  /** Every live child is the one that some handle still leads to. */
  ghost predicate ChildInv(s: State) {
    && (forall a :: a in s.callers && Replacing(s.callers[a]) ==> s.live <= CallerHeld(s.callers[a]))
    && (MonitorReplacing(s.monitor) ==> s.live <= MonitorHeld(s.monitor))
    && (!MonitorReplacing(s.monitor) && (forall a :: a in s.callers ==> !Replacing(s.callers[a]))
        ==> s.live <= SharedHandles(s))
    && (s.exit.ExitStopping? ==> s.slot == None && forall a :: a in s.callers ==> !s.callers[a].Stopping?)
  }

  /** The children that the slot and the exit handler lead to. */
  function SharedHandles(s: State): set<Child> {
    SlotSet(s.slot) + ExitHeld(s.exit)
  }

  /**
   * What the monitor could find out by looking at the slot again before it starts a binary: that
   * neither the slot nor the exit handler leads to a running child.
   */
  predicate SpawnsClear(s: State, step: Step) {
    step.MonitorSpawn? ==> SharedHandles(s) !! s.live
  }

  lemma CallerChildStep(s: State, step: Step, a: Caller, s': State)
    requires FlagInv(s) && ChildInv(s) && CallerNext(s, step, a) == Some(s')
    ensures ChildInv(s')
  {
    if a in s.callers {
      assert forall b :: b in s.callers ==> b == a;
      assert forall b :: b in s'.callers ==> b == a;
      assert !MonitorOwns(s.monitor);
    } else if step.CallerBegin? {
      assert s.callers == map[];
      assert forall b :: b in s'.callers ==> b == a;
    } else {
      assert s'.callers == s.callers && s'.monitor == s.monitor;
    }
  }

  lemma MonitorChildStep(s: State, step: Step, s': State)
    requires FlagInv(s) && ChildInv(s) && MonitorNext(s, step) == Some(s') && SpawnsClear(s, step)
    ensures ChildInv(s')
  {
    assert s'.callers == s.callers;
    if MonitorOwns(s.monitor) {
      assert s.callers == map[];
    }
  }

  lemma ChildStep(s: State, step: Step, s': State)
    requires FlagInv(s) && ChildInv(s) && Next(s, step) == Some(s') && SpawnsClear(s, step)
    ensures ChildInv(s')
  {
    if IsCallerStep(step) {
      CallerChildStep(s, step, step.caller, s');
    } else if !IsSharedStep(step) {
      MonitorChildStep(s, step, s');
    } else {
      assert s'.callers == s.callers && s'.monitor == s.monitor;
    }
  }

  ghost predicate AllSpawnsClear(states: seq<State>, steps: seq<Step>)
    requires |states| == |steps| + 1
  {
    forall i :: 0 <= i < |steps| ==> SpawnsClear(states[i], steps[i])
  }

  lemma InitialChildInv(s: State)
    requires Initial(s)
    ensures ChildInv(s)
  {
  }

  lemma {:induction false} ChildRun(states: seq<State>, steps: seq<Step>, i: nat)
    requires IsRun(states, steps) && i < |states| && AllSpawnsClear(states, steps)
    ensures ChildInv(states[i])
  {
    hide Next, ChildInv, FlagInv, Initial;
    if i == 0 {
      InitialChildInv(states[0]);
    } else {
      FlagRun(states, steps, i - 1);
      ChildRun(states, steps, i - 1);
      assert SpawnsClear(states[i - 1], steps[i - 1]);
      assert Next(states[i - 1], steps[i - 1]) == Some(states[i - 1 + 1]);
      hide SpawnsClear;
      ChildStep(states[i - 1], steps[i - 1], states[i]);
    }
  }

  lemma SubsetOfOne<T>(a: set<T>, b: set<T>)
    requires a <= b && forall x, y :: x in b && y in b ==> x == y
    ensures |a| <= 1
  {
    if a != {} {
      var x :| x in a;
      assert a == {x};
    }
  }

  lemma OneChild(s: State)
    requires FlagInv(s) && ChildInv(s)
    ensures |s.live| <= 1
    ensures !s.restarting ==> s.live <= SharedHandles(s)
  {
    if MonitorReplacing(s.monitor) {
      SubsetOfOne(s.live, MonitorHeld(s.monitor));
    } else if a :| a in s.callers && Replacing(s.callers[a]) {
      SubsetOfOne(s.live, CallerHeld(s.callers[a]));
    } else {
      SubsetOfOne(s.live, SharedHandles(s));
    }
  }

  /**
   * If the monitor never starts a binary over a running child that the slot or the exit handler
   * leads to, at most one child is ever alive, and while the flag is down it is one of those.
   */
  lemma AtMostOneChild(states: seq<State>, steps: seq<Step>, i: nat)
    requires IsRun(states, steps) && i < |states| && AllSpawnsClear(states, steps)
    ensures |states[i].live| <= 1
    ensures !states[i].restarting ==> states[i].live <= SharedHandles(states[i])
  {
    FlagRun(states, steps, i);
    ChildRun(states, steps, i);
    OneChild(states[i]);
  }

  lemma LiveStaysSpawned(s: State, step: Step)
    requires s.live <= s.spawned && Next(s, step).Some?
    ensures Next(s, step).value.live <= Next(s, step).value.spawned
  {
  }

  lemma {:induction false} LiveWereSpawned(states: seq<State>, steps: seq<Step>, i: nat)
    requires IsRun(states, steps) && i < |states|
    ensures states[i].live <= states[i].spawned
  {
    if i == 0 {
    } else {
      LiveWereSpawned(states, steps, i - 1);
      assert Next(states[i - 1], steps[i - 1]) == Some(states[i - 1 + 1]);
      LiveStaysSpawned(states[i - 1], steps[i - 1]);
      hide *;
    }
  }

  /** A binary started over a running child makes two. */
  lemma SpawnOverLive(s: State, step: Step)
    requires s.live <= s.spawned && Next(s, step).Some? && step.MonitorSpawn? && s.live != {}
    ensures |Next(s, step).value.live| >= 2
  {
    var x :| x in s.live;
    var after := Next(s, step).value.live;
    assert after == s.live + {step.child} && step.child !in s.live;
    assert {x, step.child} <= after;
    CardinalityGrows({x, step.child}, after);
  }

  lemma {:induction false} CardinalityGrows<T>(a: set<T>, b: set<T>)
    requires a <= b
    ensures |a| <= |b|
    decreases a
  {
    if a == {} {
    } else {
      var x :| x in a;
      CardinalityGrows(a - {x}, b - {x});
    }
  }

  /**
   * The exact condition, over whole runs: at most one child is alive in every state if and only if
   * the monitor never starts a binary over a running child of the slot or the exit handler.
   */
  lemma OneChildExactly(states: seq<State>, steps: seq<Step>)
    requires IsRun(states, steps)
    ensures (forall i :: 0 <= i < |states| ==> |states[i].live| <= 1) <==> AllSpawnsClear(states, steps)
  {
    if AllSpawnsClear(states, steps) {
      forall i | 0 <= i < |states| ensures |states[i].live| <= 1 {
        AtMostOneChild(states, steps, i);
      }
    } else {
      var i :| 0 <= i < |steps| && !SpawnsClear(states[i], steps[i]);
      LiveWereSpawned(states, steps, i);
      assert Next(states[i], steps[i]) == Some(states[i + 1]);
      SpawnOverLive(states[i], steps[i]);
    }
  }

  // ── The monitor's back-off window ────────────────────────────────────────

  /** No restart puts its child into the slot while the monitor is backing off. */
  ghost predicate QuietWindow(states: seq<State>, steps: seq<Step>)
    requires |states| == |steps| + 1
  {
    forall i :: 0 <= i < |steps| && steps[i].CallerStore? ==> !states[i].monitor.BackingOff?
  }

  /** From the monitor's look at the slot until it holds a child, nothing fills the slot. */
  predicate WindowInv(s: State) {
    s.monitor.BackingOff? || s.monitor.Restarting? || s.monitor.MonitorProbing? ==>
      s.slot == None && !s.exit.ExitStopping?
  }

  lemma WindowStep(s: State, step: Step, s': State)
    requires FlagInv(s) && WindowInv(s) && Next(s, step) == Some(s')
    requires step.CallerStore? ==> !s.monitor.BackingOff?
    ensures WindowInv(s')
  {
  }

  lemma {:induction false} QuietRunInv(states: seq<State>, steps: seq<Step>, i: nat)
    requires IsRun(states, steps) && i < |states| && QuietWindow(states, steps)
    ensures WindowInv(states[i])
  {
    if i == 0 {
    } else {
      hide Next, FlagInv, WindowInv;
      QuietRunInv(states, steps, i - 1);
      FlagRun(states, steps, i - 1);
      assert Next(states[i - 1], steps[i - 1]) == Some(states[i - 1 + 1]);
      WindowStep(states[i - 1], steps[i - 1], states[i]);
    }
  }

  /** In a quiet window the monitor finds nothing to look at, so the condition above holds. */
  lemma QuietRunIsClear(states: seq<State>, steps: seq<Step>)
    requires IsRun(states, steps) && QuietWindow(states, steps)
    ensures AllSpawnsClear(states, steps)
  {
    forall i | 0 <= i < |steps| ensures SpawnsClear(states[i], steps[i]) {
      QuietRunInv(states, steps, i);
      assert Next(states[i], steps[i]) == Some(states[i + 1]);
      hide IsRun, QuietWindow;
    }
  }

  /** If no restart completes inside the monitor's back-off window, at most one child is ever alive. */
  lemma QuietRunHasOneChild(states: seq<State>, steps: seq<Step>, i: nat)
    requires IsRun(states, steps) && i < |states| && QuietWindow(states, steps)
    ensures |states[i].live| <= 1
    ensures !states[i].restarting ==> states[i].live <= SharedHandles(states[i])
  {
    QuietRunIsClear(states, steps);
    AtMostOneChild(states, steps, i);
  }

  // ── A run without the hypothesis ─────────────────────────────────────────

  const FIRST := State(Some(0), false, false, map[], {}, {}, Sleeping, Idle, {0}, {0})
  const TAKEN := FIRST.(slot := None, restarting := true, callers := map[0 := Stopping(0)], monitor := Looking)
  const STORED := State(Some(1), true, false, map[0 := Ending(true)], {}, {}, BackingOff, Idle, {1}, {0, 1})
  const WON := State(Some(1), true, false, map[], {}, {}, Restarting, Idle, {1}, {0, 1})
  const BOTH := State(Some(1), true, false, map[], {}, {}, MonitorProbing(2), Idle, {1, 2}, {0, 1, 2})

  function WitnessState(i: nat): State {
    match i
    case 0 => FIRST
    case 1 => FIRST.(monitor := Awake)
    case 2 => FIRST.(monitor := Looking)
    case 3 => FIRST.(monitor := Looking, waiting := {0})
    case 4 => FIRST.(monitor := Looking, restarting := true, callers := map[0 := Begun])
    case 5 => TAKEN
    case 6 => TAKEN.(live := {}, callers := map[0 := Emptied])
    case 7 => TAKEN.(live := {}, callers := map[0 := Emptied], monitor := BackingOff)
    case 8 => STORED.(slot := None, callers := map[0 := Probing(1)])
    case 9 => STORED.(slot := None, callers := map[0 := Starting(1)])
    case 10 => STORED
    case 11 => WON.(restarting := false, monitor := BackingOff)
    case 12 => WON
    case 13 => BOTH
    case 14 => BOTH.(monitor := Launched(2))
    case 15 => BOTH.(monitor := Finishing, slot := Some(2))
    case _ => BOTH.(monitor := Sleeping, slot := Some(2), restarting := false)
  }

  const WITNESS_LENGTH: nat := 16

  function WitnessStep(i: nat): Step {
    match i
    case 0 => MonitorCheckShutdown
    case 1 => MonitorCheckFlag
    case 2 => CallerAsk(0, false)
    case 3 => CallerBegin(0)
    case 4 => CallerTake(0)
    case 5 => CallerStopped(0)
    case 6 => MonitorLook
    case 7 => CallerSpawn(0, 1)
    case 8 => CallerProbe(0)
    case 9 => CallerStore(0)
    case 10 => CallerEnd(0)
    case 11 => MonitorTryBegin
    case 12 => MonitorSpawn(2)
    case 13 => MonitorProbe
    case 14 => MonitorStore
    case _ => MonitorEnd
  }

  lemma WitnessCallerNext(i: nat)
    requires 2 <= i < 11 && i != 6
    ensures CallerNext(WitnessState(i), WitnessStep(i), 0) == Some(WitnessState(i + 1))
  {
    var s, t := WitnessState(i), WitnessState(i + 1);
    if i == 2 {
      assert t.waiting == s.waiting + {0} && t.switching == s.switching - {0};
    } else if i == 10 {
      assert s.callers - {0} == map[] && t.switching == s.switching - {0};
    } else {
      assert t.callers == s.callers[0 := t.callers[0]];
    }
    if i == 3 { assert t.waiting == s.waiting - {0}; }
    if i == 5 { assert t.live == s.live - {0}; }
    if i == 7 { assert t.live == s.live + {1} && t.spawned == s.spawned + {1}; }
  }

  lemma WitnessMonitorNext(i: nat)
    requires i < 2 || i == 6 || 11 <= i < WITNESS_LENGTH
    ensures MonitorNext(WitnessState(i), WitnessStep(i)) == Some(WitnessState(i + 1))
  {
    var s, t := WitnessState(i), WitnessState(i + 1);
    if i == 12 { assert t.live == s.live + {2} && t.spawned == s.spawned + {2}; }
  }

  lemma WitnessNext(i: nat)
    requires i < WITNESS_LENGTH
    ensures Next(WitnessState(i), WitnessStep(i)) == Some(WitnessState(i + 1))
  {
    hide WitnessState, CallerNext, MonitorNext;
    if 2 <= i < 11 && i != 6 {
      WitnessCallerNext(i);
    } else {
      WitnessMonitorNext(i);
    }
  }

  /**
   * Without the hypothesis the property fails: a restart that completes inside the window
   * leaves two live children, the flag down, and one child that no handle leads to.
   */
  lemma TwoChildren() returns (states: seq<State>, steps: seq<Step>)
    ensures IsRun(states, steps)
    ensures var s := states[|steps|]; !s.restarting && s.exit == Idle && s.live == {1, 2} && s.slot == Some(2)
  {
    steps := seq(WITNESS_LENGTH, i requires 0 <= i => WitnessStep(i));
    states := seq(WITNESS_LENGTH + 1, i requires 0 <= i => WitnessState(i));
    assert Initial(states[0]);
    assert states[|steps|] == BOTH.(monitor := Sleeping, slot := Some(2), restarting := false);
    hide Next, WitnessState, WitnessStep;
    forall i | 0 <= i < |steps| ensures Next(states[i], steps[i]) == Some(states[i + 1]) {
      WitnessNext(i);
    }
  }
}
