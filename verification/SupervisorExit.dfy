/**
 * What can still happen after the exit handler: from a state with the shutdown flag up, exactly
 * when can a child be started without a new restart request, and exactly when does nothing run.
 */
module SupervisorExit {
  import opened Supervisor
  import opened Wrappers

  // ── Right after the handler ──────────────────────────────────────────────

  lemma MarkStays(s: State, step: Step)
    requires (s.exit != Idle ==> s.shuttingDown) && Next(s, step).Some?
    ensures Next(s, step).value.exit != Idle ==> Next(s, step).value.shuttingDown
  {
  }

  lemma {:induction false} MarkedMeansShutdown(states: seq<State>, steps: seq<Step>, i: nat)
    requires IsRun(states, steps) && i < |states|
    ensures states[i].exit != Idle ==> states[i].shuttingDown
  {
    if i == 0 {
    } else {
      MarkedMeansShutdown(states, steps, i - 1);
      assert Next(states[i - 1], steps[i - 1]) == Some(states[i - 1 + 1]);
      MarkStays(states[i - 1], steps[i - 1]);
      hide *;
    }
  }

  /** When the exit handler is done with the slot and no restart is under way, nothing is running at that moment. */
  lemma ExitLeavesNothingRunning(states: seq<State>, steps: seq<Step>, i: nat)
    requires IsRun(states, steps) && i < |steps| && AllSpawnsClear(states, steps)
    requires steps[i].ExitTake? || steps[i].ExitStopped?
    requires states[i + 1].exit == Idle && !states[i + 1].restarting
    ensures states[i + 1].live == {} && states[i + 1].shuttingDown
  {
    assert Next(states[i], steps[i]) == Some(states[i + 1]);
    AtMostOneChild(states, steps, i + 1);
    AtMostOneChild(states, steps, i);
    ChildRun(states, steps, i);
    MarkedMeansShutdown(states, steps, i);
    hide IsRun, AllSpawnsClear, FlagInv;
  }

  // ── Continuations ────────────────────────────────────────────────────────

  predicate IsSpawn(step: Step) {
    step.CallerSpawn? || step.MonitorSpawn?
  }

  /** `states` goes on from `s` by `steps`, and nobody asks for a restart who was not waiting or switching before. */
  ghost predicate Continues(s: State, states: seq<State>, steps: seq<Step>) {
    && |states| == |steps| + 1
    && states[0] == s
    && forall i :: 0 <= i < |steps| ==> !steps[i].CallerAsk? && Next(states[i], steps[i]) == Some(states[i + 1])
  }

  ghost predicate Spawns(steps: seq<Step>) {
    exists i :: 0 <= i < |steps| && IsSpawn(steps[i])
  }

  /** No child is ever started from `s` on. */
  ghost predicate NothingStarts(s: State) {
    forall states, steps :: Continues(s, states, steps) ==> !Spawns(steps)
  }

  /** No child runs in any state from `s` on. */
  ghost predicate NothingRuns(s: State) {
    forall states, steps :: Continues(s, states, steps) ==> NoneLive(states)
  }

  ghost predicate NoneLive(states: seq<State>) {
    forall i :: 0 <= i < |states| ==> states[i].live == {}
  }

  // ── The condition ────────────────────────────────────────────────────────

  /** A caller that has its child already, or has given up. */
  predicate CallerPastSpawn(pc: CallerPc) {
    pc.Starting? || pc.Discarding? || pc.Ending?
  }

  /** The monitor has yet to check the shutdown flag, has its child already, or has stopped. */
  predicate MonitorPastSpawn(pc: MonitorPc) {
    pc.Sleeping? || pc.Launched? || pc.Finishing? || pc.Stopped?
  }

  /** A switch that can still fail, and then waits to go back to the previous cluster. */
  predicate MayRollBack(s: State, a: Caller) {
    a in s.callers && a in s.switching && s.callers[a] != Ending(true)
  }

  /** Nobody waits for the flag, no switch can still fail, and all others are past their spawn. */
  predicate PastSpawn(s: State) {
    && MonitorPastSpawn(s.monitor) && s.waiting == {}
    && forall a :: a in s.callers ==> CallerPastSpawn(s.callers[a]) && !MayRollBack(s, a)
  }

  lemma PastSpawnStep(s: State, step: Step, s': State)
    requires s.shuttingDown && PastSpawn(s) && Next(s, step) == Some(s') && !step.CallerAsk?
    ensures s'.shuttingDown && PastSpawn(s') && !IsSpawn(step)
    ensures s'.live <= s.live
  {
  }

  lemma {:induction false} PastSpawnRun(s: State, states: seq<State>, steps: seq<Step>, i: nat)
    requires s.shuttingDown && PastSpawn(s) && Continues(s, states, steps) && i < |states|
    ensures states[i].shuttingDown && PastSpawn(states[i]) && states[i].live <= s.live
  {
    if i == 0 {
    } else {
      PastSpawnRun(s, states, steps, i - 1);
      assert Next(states[i - 1], steps[i - 1]) == Some(states[i - 1 + 1]);
      PastSpawnStep(states[i - 1], steps[i - 1], states[i]);
      hide *;
    }
  }

  lemma PastSpawnStartsNothing(s: State)
    requires s.shuttingDown && PastSpawn(s)
    ensures NothingStarts(s) && (s.live == {} ==> NothingRuns(s))
  {
    forall states: seq<State>, steps: seq<Step> | Continues(s, states, steps)
      ensures !Spawns(steps) && (s.live == {} ==> NoneLive(states))
    {
      forall i | 0 <= i < |steps| ensures !IsSpawn(steps[i]) {
        PastSpawnRun(s, states, steps, i);
        assert Next(states[i], steps[i]) == Some(states[i + 1]);
        PastSpawnStep(states[i], steps[i], states[i + 1]);
      }
      forall i | 0 <= i < |states| ensures states[i].live <= s.live {
        PastSpawnRun(s, states, steps, i);
      }
    }
  }

  // ── Every other state has a continuation that starts a child ─────────────

  ghost predicate CanStart(s: State) {
    exists states, steps :: Continues(s, states, steps) && Spawns(steps)
  }

  lemma SpawnNow(s: State, step: Step)
    requires IsSpawn(step) && Next(s, step).Some?
    ensures CanStart(s)
  {
    var states, steps := [s, Next(s, step).value], [step];
    assert Continues(s, states, steps) && IsSpawn(steps[0]);
  }

  lemma StartLater(s: State, step: Step)
    requires !step.CallerAsk? && Next(s, step).Some? && CanStart(Next(s, step).value)
    ensures CanStart(s)
  {
    var next := Next(s, step).value;
    var states, steps :| Continues(next, states, steps) && Spawns(steps);
    var i :| 0 <= i < |steps| && IsSpawn(steps[i]);
    hide Next;
    var states', steps' := [s] + states, [step] + steps;
    assert IsSpawn(steps'[i + 1]);
    assert Continues(s, states', steps') by {
      forall j | 0 <= j < |steps'|
        ensures !steps'[j].CallerAsk? && Next(states'[j], steps'[j]) == Some(states'[j + 1])
      {
        if j > 0 {
          assert steps'[j] == steps[j - 1] && states'[j] == states[j - 1] && states'[j + 1] == states[j - 1 + 1];
        }
      }
    }
  }

  lemma {:induction false} AboveAll(spawned: set<Child>) returns (c: Child)
    ensures forall d :: d in spawned ==> d < c
    decreases spawned
  {
    if spawned == {} {
      c := 0;
    } else {
      var d :| d in spawned;
      var e := AboveAll(spawned - {d});
      c := if d < e then e else d + 1;
      assert forall x :: x in spawned ==> x == d || x in spawned - {d};
    }
  }

  // Callers that have yet to start a binary

  lemma StartFromEmptied(s: State, a: Caller)
    requires a in s.callers && s.callers[a] == Emptied
    ensures CanStart(s)
  {
    var c := AboveAll(s.spawned);
    SpawnNow(s, CallerSpawn(a, c));
  }

  lemma StartFromStopping(s: State, a: Caller)
    requires a in s.callers && s.callers[a].Stopping?
    ensures CanStart(s)
  {
    StartFromEmptied(Next(s, CallerStopped(a)).value, a);
    StartLater(s, CallerStopped(a));
  }

  lemma StartFromProbing(s: State, a: Caller)
    requires a in s.callers && s.callers[a].Probing?
    ensures CanStart(s)
  {
    var dead := Next(s, ChildDies(s.callers[a].child)).value;
    StartFromEmptied(Next(dead, CallerProbe(a)).value, a);
    StartLater(dead, CallerProbe(a));
    StartLater(s, ChildDies(s.callers[a].child));
  }

  lemma StartFromBegunUnlocked(s: State, a: Caller)
    requires a in s.callers && s.callers[a] == Begun && SlotUnlocked(s)
    ensures CanStart(s)
  {
    var next := Next(s, CallerTake(a)).value;
    if s.slot.Some? {
      StartFromStopping(next, a);
    } else {
      StartFromEmptied(next, a);
    }
    StartLater(s, CallerTake(a));
  }

  lemma StartFromCaller(s: State, a: Caller)
    requires FlagInv(s) && a in s.callers && !CallerPastSpawn(s.callers[a])
    ensures CanStart(s)
  {
    match s.callers[a]
    case Begun =>
      if s.exit.ExitStopping? {
        assert forall b :: b in s.callers ==> b == a;
        StartFromBegunUnlocked(Next(s, ExitStopped).value, a);
        StartLater(s, ExitStopped);
      } else {
        assert forall b :: b in s.callers ==> b == a;
        StartFromBegunUnlocked(s, a);
      }
    case Stopping(_) => StartFromStopping(s, a);
    case Emptied => StartFromEmptied(s, a);
    case Probing(_) => StartFromProbing(s, a);
  }

  // A monitor that has passed its check of the shutdown flag

  lemma StartFromRestarting(s: State)
    requires s.monitor == Restarting
    ensures CanStart(s)
  {
    var c := AboveAll(s.spawned);
    SpawnNow(s, MonitorSpawn(c));
  }

  lemma StartFromProbe(s: State)
    requires s.monitor.MonitorProbing?
    ensures CanStart(s)
  {
    var dead := Next(s, ChildDies(s.monitor.child)).value;
    StartFromRestarting(Next(dead, MonitorProbe).value);
    StartLater(dead, MonitorProbe);
    StartLater(s, ChildDies(s.monitor.child));
  }

  lemma StartFromLooking(s: State)
    requires s.callers == map[] && !s.restarting && s.monitor == Looking
    ensures CanStart(s)
  {
    if s.exit.ExitStopping? {
      StartFromLookingUnlocked(Next(s, ExitStopped).value);
      StartLater(s, ExitStopped);
    } else {
      StartFromLookingUnlocked(s);
    }
  }

  lemma StartFromLookingUnlocked(s: State)
    requires s.callers == map[] && !s.restarting && s.monitor == Looking && !s.exit.ExitStopping?
    ensures CanStart(s)
  {
    if s.slot.Some? && s.slot.value in s.live {
      var dead := Next(s, ChildDies(s.slot.value)).value;
      StartFromDeadSlot(dead);
      StartLater(s, ChildDies(s.slot.value));
    } else {
      StartFromDeadSlot(s);
    }
  }

  lemma StartFromDeadSlot(s: State)
    requires s.callers == map[] && !s.restarting && s.monitor == Looking && !s.exit.ExitStopping?
    requires s.slot.Some? ==> s.slot.value !in s.live
    ensures CanStart(s)
  {
    var next := Next(s, MonitorLook).value;
    StartFromRestarting(Next(next, MonitorTryBegin).value);
    StartLater(next, MonitorTryBegin);
    StartLater(s, MonitorLook);
  }

  // Those who get the flag once it is down

  predicate MonitorOnItsWay(pc: MonitorPc) {
    pc.BackingOff? || pc.Looking? || pc.Awake?
  }

  /** Somebody waits for the flag, a switch can still fail and wait again, or the monitor is on its way to a restart. */
  predicate Wanted(s: State) {
    s.waiting != {} || MonitorOnItsWay(s.monitor) || exists a :: a in s.callers && MayRollBack(s, a)
  }

  lemma StartWithFlagDown(s: State)
    requires FlagInv(s) && !s.restarting && Wanted(s)
    ensures CanStart(s)
  {
    if a :| a in s.waiting {
      var next := Next(s, CallerBegin(a)).value;
      FlagStep(s, CallerBegin(a), next);
      StartFromCaller(next, a);
      StartLater(s, CallerBegin(a));
    } else if s.monitor == BackingOff {
      StartFromRestarting(Next(s, MonitorTryBegin).value);
      StartLater(s, MonitorTryBegin);
    } else if s.monitor == Looking {
      StartFromLooking(s);
    } else {
      StartFromLooking(Next(s, MonitorCheckFlag).value);
      StartLater(s, MonitorCheckFlag);
    }
  }

  lemma StartAfterEnding(s: State, a: Caller)
    requires FlagInv(s) && Wanted(s) && a in s.callers && s.callers[a].Ending?
    ensures CanStart(s)
  {
    var next := Next(s, CallerEnd(a)).value;
    FlagStep(s, CallerEnd(a), next);
    assert forall b :: b in s.callers ==> b == a;
    StartWithFlagDown(next);
    StartLater(s, CallerEnd(a));
  }

  lemma StartAfterDiscarding(s: State, a: Caller)
    requires FlagInv(s) && Wanted(s) && a in s.callers && s.callers[a].Discarding?
    ensures CanStart(s)
  {
    var next := Next(s, CallerDiscarded(a)).value;
    FlagStep(s, CallerDiscarded(a), next);
    assert MayRollBack(s, a) ==> MayRollBack(next, a);
    assert forall b :: b in s.callers ==> b == a;
    StartAfterEnding(next, a);
    StartLater(s, CallerDiscarded(a));
  }

  lemma StartAfterStarting(s: State, a: Caller)
    requires FlagInv(s) && Wanted(s) && a in s.callers && s.callers[a].Starting?
    ensures CanStart(s)
  {
    var next := Next(s, CallerReject(a)).value;
    FlagStep(s, CallerReject(a), next);
    assert MayRollBack(s, a) ==> MayRollBack(next, a);
    assert forall b :: b in s.callers ==> b == a;
    StartAfterDiscarding(next, a);
    StartLater(s, CallerReject(a));
  }

  lemma StartAfterFinishing(s: State)
    requires FlagInv(s) && s.waiting != {} && s.monitor.Finishing?
    ensures CanStart(s)
  {
    var next := Next(s, MonitorEnd).value;
    FlagStep(s, MonitorEnd, next);
    StartWithFlagDown(next);
    StartLater(s, MonitorEnd);
  }

  lemma StartAfterLaunched(s: State)
    requires FlagInv(s) && s.waiting != {} && s.monitor.Launched? && !s.exit.ExitStopping?
    ensures CanStart(s)
  {
    var next := Next(s, MonitorStore).value;
    FlagStep(s, MonitorStore, next);
    StartAfterFinishing(next);
    StartLater(s, MonitorStore);
  }

  /** Whoever holds the flag lowers it in the end. */
  lemma StartAfterOwner(s: State)
    requires FlagInv(s) && Wanted(s) && (MonitorPastSpawn(s.monitor) || MonitorOnItsWay(s.monitor))
    requires forall a :: a in s.callers ==> CallerPastSpawn(s.callers[a])
    ensures CanStart(s)
  {
    if a :| a in s.callers {
      match s.callers[a]
      case Starting(_) => StartAfterStarting(s, a);
      case Discarding(_) => StartAfterDiscarding(s, a);
      case Ending(_) => StartAfterEnding(s, a);
    } else if s.monitor.Finishing? {
      StartAfterFinishing(s);
    } else if s.monitor.Launched? && s.exit.ExitStopping? {
      FlagStep(s, ExitStopped, Next(s, ExitStopped).value);
      StartAfterLaunched(Next(s, ExitStopped).value);
      StartLater(s, ExitStopped);
    } else if s.monitor.Launched? {
      StartAfterLaunched(s);
    } else {
      assert s.callers == map[];
      StartWithFlagDown(s);
    }
  }

  lemma OthersCanStart(s: State)
    requires FlagInv(s) && !PastSpawn(s)
    ensures CanStart(s)
  {
    if a :| a in s.callers && !CallerPastSpawn(s.callers[a]) {
      StartFromCaller(s, a);
    } else if s.monitor == Restarting {
      StartFromRestarting(s);
    } else if s.monitor.MonitorProbing? {
      StartFromProbe(s);
    } else {
      StartAfterOwner(s);
    }
  }

  // ── The exact conditions ─────────────────────────────────────────────────

  /** A run that starts a child has a live one. */
  lemma SpawnedIsLive(s: State, states: seq<State>, steps: seq<Step>)
    requires Continues(s, states, steps) && Spawns(steps)
    ensures !NoneLive(states)
  {
    var i :| 0 <= i < |steps| && IsSpawn(steps[i]);
    assert Next(states[i], steps[i]) == Some(states[i + 1]);
    assert steps[i].child in states[i + 1].live;
  }

  /**
   * After the shutdown flag went up, no child is started any more, unless somebody asks for a restart
   * anew, if and only if nobody waits for the flag, no switch can still fail, every restart under way
   * is past its spawn, and the monitor is not between its check of the shutdown flag and its own spawn.
   */
  lemma StartsNothingExactly(states: seq<State>, steps: seq<Step>, i: nat)
    requires IsRun(states, steps) && i < |states| && states[i].shuttingDown
    ensures NothingStarts(states[i]) <==> PastSpawn(states[i])
  {
    FlagRun(states, steps, i);
    if PastSpawn(states[i]) {
      PastSpawnStartsNothing(states[i]);
    } else {
      OthersCanStart(states[i]);
    }
  }

  /** And nothing ever runs again if and only if, moreover, nothing runs now. */
  lemma RunsNothingExactly(states: seq<State>, steps: seq<Step>, i: nat)
    requires IsRun(states, steps) && i < |states| && states[i].shuttingDown
    ensures NothingRuns(states[i]) <==> states[i].live == {} && PastSpawn(states[i])
  {
    FlagRun(states, steps, i);
    if states[i].live != {} {
      assert Continues(states[i], [states[i]], []);
      assert !NoneLive([states[i]]) by {
        assert [states[i]][0].live != {};
      }
    } else if PastSpawn(states[i]) {
      PastSpawnStartsNothing(states[i]);
    } else {
      OthersCanStart(states[i]);
      var later, more :| Continues(states[i], later, more) && Spawns(more);
      SpawnedIsLive(states[i], later, more);
    }
  }

  /**
   * So when the exit handler finishes while no restart is under way, it is final if and only if
   * nobody waits for the flag and the monitor is asleep or has stopped.
   */
  lemma ExitIsFinalExactly(states: seq<State>, steps: seq<Step>, i: nat)
    requires IsRun(states, steps) && i < |steps| && AllSpawnsClear(states, steps)
    requires steps[i].ExitTake? || steps[i].ExitStopped?
    requires states[i + 1].exit == Idle && !states[i + 1].restarting
    ensures var s := states[i + 1];
      NothingRuns(s) <==> s.waiting == {} && (s.monitor == Sleeping || s.monitor == Stopped)
  {
    ExitLeavesNothingRunning(states, steps, i);
    RunsNothingExactly(states, steps, i + 1);
    FlagRun(states, steps, i + 1);
    hide IsRun, AllSpawnsClear, NothingRuns;
  }

  /** Restart callers never read the shutdown flag: whoever asks after exit can start a child. */
  lemma RequestAfterExit(states: seq<State>, steps: seq<Step>, i: nat, a: Caller, switches: bool)
    requires IsRun(states, steps) && i < |states| && a !in states[i].callers && a !in states[i].waiting
    ensures Next(states[i], CallerAsk(a, switches)).Some? && CanStart(Next(states[i], CallerAsk(a, switches)).value)
  {
    FlagRun(states, steps, i);
    var asked := Next(states[i], CallerAsk(a, switches)).value;
    FlagStep(states[i], CallerAsk(a, switches), asked);
    OthersCanStart(asked);
  }

  // ── Three runs in which a child survives ─────────────────────────────────

  // A restart that is under way at exit

  const LEAVING := State(None, true, true, map[0 := Emptied], {}, {}, Sleeping, Idle, {}, {0})
  const BACK := LEAVING.(callers := map[0 := Starting(1)], live := {1}, spawned := {0, 1})

  function ExitState(i: nat): State {
    match i
    case 0 => FIRST
    case 1 => FIRST.(waiting := {0})
    case 2 => FIRST.(restarting := true, callers := map[0 := Begun])
    case 3 => FIRST.(restarting := true, callers := map[0 := Stopping(0)], slot := None)
    case 4 => LEAVING.(shuttingDown := false)
    case 5 => LEAVING.(exit := Marked)
    case 6 => LEAVING
    case 7 => BACK.(callers := map[0 := Probing(1)])
    case 8 => BACK
    case 9 => BACK.(callers := map[0 := Ending(true)], slot := Some(1))
    case _ => BACK.(callers := map[], restarting := false, slot := Some(1))
  }

  function ExitStep(i: nat): Step {
    match i
    case 0 => CallerAsk(0, false)
    case 1 => CallerBegin(0)
    case 2 => CallerTake(0)
    case 3 => CallerStopped(0)
    case 4 => ExitMark
    case 5 => ExitTake
    case 6 => CallerSpawn(0, 1)
    case 7 => CallerProbe(0)
    case 8 => CallerStore(0)
    case _ => CallerEnd(0)
  }

  lemma ExitCallerNext(i: nat)
    requires i < 10 && i != 4 && i != 5
    ensures CallerNext(ExitState(i), ExitStep(i), 0) == Some(ExitState(i + 1))
  {
    var s, t := ExitState(i), ExitState(i + 1);
    if i == 0 {
      assert t.waiting == s.waiting + {0} && t.switching == s.switching - {0};
    } else if i == 9 {
      assert s.callers - {0} == map[] && t.switching == s.switching - {0};
    } else {
      assert t.callers == s.callers[0 := t.callers[0]];
    }
    if i == 1 { assert t.waiting == s.waiting - {0}; }
    if i == 3 { assert t.live == s.live - {0}; }
    if i == 6 { assert t.live == s.live + {1} && t.spawned == s.spawned + {1}; }
  }

  lemma ExitNextIs(i: nat)
    requires i < 10
    ensures Next(ExitState(i), ExitStep(i)) == Some(ExitState(i + 1))
  {
    if i == 4 || i == 5 {
      assert ExitNext(ExitState(i), ExitStep(i)) == Some(ExitState(i + 1));
    } else {
      hide ExitState, CallerNext;
      ExitCallerNext(i);
    }
  }

  /** The exit handler finds the slot empty while a restart is under way, and the restart stores its child later. */
  lemma ChildAfterExit() returns (states: seq<State>, steps: seq<Step>)
    ensures IsRun(states, steps) && QuietWindow(states, steps)
    ensures var s := states[|steps|];
      s.shuttingDown && s.exit == Idle && !s.restarting && s.live == {1} && s.slot == Some(1)
  {
    steps := seq(10, i requires 0 <= i => ExitStep(i));
    states := seq(11, i requires 0 <= i => ExitState(i));
    assert Initial(states[0]);
    assert forall i :: 0 <= i < |steps| ==> !states[i].monitor.BackingOff?;
    assert states[|steps|] == ExitState(10);
    hide Next, ExitStep;
    forall i | 0 <= i < |steps| ensures Next(states[i], steps[i]) == Some(states[i + 1]) {
      ExitNextIs(i);
    }
  }

  // The monitor alone, past its check of the flag

  const LOOKED := State(None, false, false, map[], {}, {}, BackingOff, Idle, {}, {0})
  const REVIVED := State(None, true, true, map[], {}, {}, MonitorProbing(1), Idle, {1}, {0, 1})

  function MonitorState(i: nat): State {
    match i
    case 0 => FIRST
    case 1 => FIRST.(live := {})
    case 2 => FIRST.(live := {}, monitor := Awake)
    case 3 => FIRST.(live := {}, monitor := Looking)
    case 4 => LOOKED
    case 5 => LOOKED.(shuttingDown := true, exit := Marked)
    case 6 => LOOKED.(shuttingDown := true)
    case 7 => LOOKED.(shuttingDown := true, restarting := true, monitor := Restarting)
    case 8 => REVIVED
    case 9 => REVIVED.(monitor := Launched(1))
    case 10 => REVIVED.(monitor := Finishing, slot := Some(1))
    case _ => REVIVED.(monitor := Sleeping, slot := Some(1), restarting := false)
  }

  function MonitorStep(i: nat): Step {
    match i
    case 0 => ChildDies(0)
    case 1 => MonitorCheckShutdown
    case 2 => MonitorCheckFlag
    case 3 => MonitorLook
    case 4 => ExitMark
    case 5 => ExitTake
    case 6 => MonitorTryBegin
    case 7 => MonitorSpawn(1)
    case 8 => MonitorProbe
    case 9 => MonitorStore
    case _ => MonitorEnd
  }

  lemma MonitorNextIs(i: nat)
    requires i < 11
    ensures Next(MonitorState(i), MonitorStep(i)) == Some(MonitorState(i + 1))
  {
    var s, t := MonitorState(i), MonitorState(i + 1);
    if i == 0 {
      assert t.live == s.live - {0};
    } else if i == 5 || i == 4 {
      assert ExitNext(s, MonitorStep(i)) == Some(t);
    } else {
      if i == 7 {
        assert t.live == s.live + {1} && t.spawned == s.spawned + {1};
      }
      assert MonitorNext(s, MonitorStep(i)) == Some(t);
    }
  }

  /**
   * No restart is requested at all: the monitor has passed its check of the shutdown flag when the
   * exit handler runs and finishes with nothing running, and starts a child afterwards.
   */
  lemma MonitorAfterExit() returns (states: seq<State>, steps: seq<Step>)
    ensures IsRun(states, steps) && QuietWindow(states, steps) && |steps| == 11
    ensures var s := states[6];
      steps[5].ExitTake? && s.exit == Idle && !s.restarting && s.callers == map[] && s.live == {}
    ensures var s := states[11]; s.shuttingDown && s.exit == Idle && !s.restarting && s.live == {1} && s.slot == Some(1)
  {
    steps := seq(11, i requires 0 <= i => MonitorStep(i));
    states := seq(12, i requires 0 <= i => MonitorState(i));
    assert Initial(states[0]);
    assert forall i :: 0 <= i < |steps| ==> !steps[i].CallerStore?;
    assert states[11] == MonitorState(11) && states[6] == MonitorState(6) && steps[5] == MonitorStep(5);
    hide Next, MonitorStep, MonitorState;
    forall i | 0 <= i < |steps| ensures Next(states[i], steps[i]) == Some(states[i + 1]) {
      MonitorNextIs(i);
    }
  }

  // A switch that failed before exit

  const SWITCHING := State(None, true, false, map[0 := Starting(1)], {}, {0}, Sleeping, Idle, {1}, {0, 1})
  const FAILED := State(None, false, true, map[], {0}, {}, Sleeping, Idle, {}, {0, 1})
  const ROLLING := State(None, true, true, map[0 := Starting(2)], {}, {}, Sleeping, Idle, {2}, {0, 1, 2})

  function RollbackState(i: nat): State {
    match i
    case 0 => FIRST
    case 1 => FIRST.(waiting := {0}, switching := {0})
    case 2 => FIRST.(restarting := true, callers := map[0 := Begun], switching := {0})
    case 3 => FIRST.(restarting := true, callers := map[0 := Stopping(0)], switching := {0}, slot := None)
    case 4 => SWITCHING.(callers := map[0 := Emptied], live := {}, spawned := {0})
    case 5 => SWITCHING.(callers := map[0 := Probing(1)])
    case 6 => SWITCHING
    case 7 => SWITCHING.(callers := map[0 := Discarding(1)])
    case 8 => SWITCHING.(callers := map[0 := Ending(false)], live := {})
    case 9 => FAILED.(shuttingDown := false)
    case 10 => FAILED.(exit := Marked)
    case 11 => FAILED
    case 12 => ROLLING.(callers := map[0 := Begun], live := {}, spawned := {0, 1})
    case 13 => ROLLING.(callers := map[0 := Emptied], live := {}, spawned := {0, 1})
    case 14 => ROLLING.(callers := map[0 := Probing(2)])
    case 15 => ROLLING
    case 16 => ROLLING.(callers := map[0 := Ending(true)], slot := Some(2))
    case _ => ROLLING.(callers := map[], restarting := false, slot := Some(2))
  }

  function RollbackStep(i: nat): Step {
    match i
    case 0 => CallerAsk(0, true)
    case 1 => CallerBegin(0)
    case 2 => CallerTake(0)
    case 3 => CallerStopped(0)
    case 4 => CallerSpawn(0, 1)
    case 5 => CallerProbe(0)
    case 6 => CallerReject(0)
    case 7 => CallerDiscarded(0)
    case 8 => CallerEnd(0)
    case 9 => ExitMark
    case 10 => ExitTake
    case 11 => CallerBegin(0)
    case 12 => CallerTake(0)
    case 13 => CallerSpawn(0, 2)
    case 14 => CallerProbe(0)
    case 15 => CallerStore(0)
    case _ => CallerEnd(0)
  }

  lemma RollbackCallerNext(i: nat)
    requires i < 17 && i != 9 && i != 10
    ensures CallerNext(RollbackState(i), RollbackStep(i), 0) == Some(RollbackState(i + 1))
  {
    var s, t := RollbackState(i), RollbackState(i + 1);
    if i == 0 {
      assert t.waiting == s.waiting + {0} && t.switching == s.switching + {0};
    } else if i == 8 || i == 16 {
      assert s.callers - {0} == map[] && t.switching == s.switching - {0};
      assert i == 8 ==> t.waiting == s.waiting + {0};
    } else {
      assert t.callers == s.callers[0 := t.callers[0]];
    }
    if i == 1 || i == 11 { assert t.waiting == s.waiting - {0}; }
    if i == 3 { assert t.live == s.live - {0}; }
    if i == 7 { assert t.live == s.live - {1}; }
    if i == 4 { assert t.live == s.live + {1} && t.spawned == s.spawned + {1}; }
    if i == 13 { assert t.live == s.live + {2} && t.spawned == s.spawned + {2}; }
  }

  lemma RollbackNextIs(i: nat)
    requires i < 17
    ensures Next(RollbackState(i), RollbackStep(i)) == Some(RollbackState(i + 1))
  {
    if i == 9 || i == 10 {
      assert ExitNext(RollbackState(i), RollbackStep(i)) == Some(RollbackState(i + 1));
    } else {
      hide RollbackState, CallerNext;
      RollbackCallerNext(i);
    }
  }

  /**
   * A switch fails before exit. The exit handler finishes with nothing running, no restart under way
   * and the monitor asleep; then the switch goes back to the previous cluster and starts a child.
   */
  lemma RollbackAfterExit() returns (states: seq<State>, steps: seq<Step>)
    ensures IsRun(states, steps) && QuietWindow(states, steps) && |steps| == 17
    ensures forall i :: 0 < i < 17 ==> !steps[i].CallerAsk?
    ensures var s := states[11];
      steps[10].ExitTake? && s.exit == Idle && !s.restarting && s.live == {} && s.monitor == Sleeping
    ensures var s := states[17]; s.shuttingDown && s.exit == Idle && !s.restarting && s.live == {2} && s.slot == Some(2)
  {
    steps := seq(17, i requires 0 <= i => RollbackStep(i));
    states := seq(18, i requires 0 <= i => RollbackState(i));
    assert Initial(states[0]);
    assert forall i :: 0 <= i < |steps| ==> !states[i].monitor.BackingOff?;
    assert states[17] == RollbackState(17) && states[11] == RollbackState(11) && steps[10] == RollbackStep(10);
    hide Next, RollbackStep, RollbackState;
    forall i | 0 <= i < |steps| ensures Next(states[i], steps[i]) == Some(states[i + 1]) {
      RollbackNextIs(i);
    }
  }
}
