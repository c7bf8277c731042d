/**
 * Particular courses of the backup tasks: what a task does when nothing falls in between, and what
 * can go wrong when something does.
 */
module BackupPaths {
  import opened BackupHistory
  import opened BackupScheduler
  import opened BackupTasks
  import opened Strings
  import opened Wrappers

  /** `states` goes on from `s` by `events`. */
  ghost predicate IsPath(env: Env, s: Sys, events: seq<Event>, states: seq<Sys>) {
    && |states| == |events| + 1 && states[0] == s
    && forall i :: 0 <= i < |events| ==> Next(env, states[i], events[i]) == Some(states[i + 1])
  }

  ghost predicate Leads(env: Env, s: Sys, events: seq<Event>, s': Sys) {
    exists states :: IsPath(env, s, events, states) && states[|events|] == s'
  }

  lemma LeadsByOne(env: Env, s: Sys, e: Event, s': Sys)
    requires Next(env, s, e) == Some(s')
    ensures Leads(env, s, [e], s')
  {
    hide Next;
    assert IsPath(env, s, [e], [s, s']);
    assert [s, s'][|[e]|] == s';
  }

  lemma LeadsByTwo(env: Env, s: Sys, e: Event, s': Sys, e': Event, s'': Sys)
    requires Next(env, s, e) == Some(s') && Next(env, s', e') == Some(s'')
    ensures Leads(env, s, [e, e'], s'')
  {
    hide Next;
    assert IsPath(env, s, [e, e'], [s, s', s'']);
    assert [s, s', s''][|[e, e']|] == s'';
  }

  lemma LeadsOn(env: Env, s: Sys, events: seq<Event>, s': Sys, more: seq<Event>, s'': Sys)
    requires Leads(env, s, events, s') && Leads(env, s', more, s'')
    ensures Leads(env, s, events + more, s'')
  {
    hide Next;
    var states :| IsPath(env, s, events, states) && states[|events|] == s';
    var later :| IsPath(env, s', more, later) && later[|more|] == s'';
    var n, all := |events|, states + later[1..];
    forall i | 0 <= i < |events + more| ensures Next(env, all[i], (events + more)[i]) == Some(all[i + 1]) {
      if i >= n {
        assert all[i] == later[i - n] && all[i + 1] == later[i - n + 1];
      }
    }
    assert all[|events + more|] == s'';
    assert IsPath(env, s, events + more, all);
  }

  // ── Single moves of a task ───────────────────────────────────────────────

  lemma SetTwice(s: Sys, id: TaskId, t: Task, t': Task)
    ensures SetTask(SetTask(s, id, t), id, t') == SetTask(s, id, t')
  {
    assert s.tasks[id := t][id := t'] == s.tasks[id := t'];
  }

  lemma EndSet(s: Sys, id: TaskId, t: Task)
    requires id !in s.tasks
    ensures EndTask(SetTask(s, id, t), id) == s
  {
    assert s.tasks[id := t] - {id} == s.tasks;
  }

  lemma Loads(env: Env, s: Sys)
    requires WORKER !in s.tasks && s.worker.next == |s.worker.loaded|
    ensures Next(env, s, Load(true)) == Some(s.(worker := Worker(s.store.schedules, 0, |s.marks|, s.stored)))
  {
  }

  lemma Turns(env: Env, s: Sys, check: Time, l: Schedule, worker: Worker)
    requires WORKER !in s.tasks && s.worker.next < |s.worker.loaded| && s.worker.loaded[s.worker.next] == l
    requires s.clock <= check && IsDue(env, l, check) && worker == s.worker.(next := s.worker.next + 1)
    ensures Next(env, s, TakeTurn(check)) ==
            Some(SetTask(s.(worker := worker, clock := check), WORKER, Task(BeginRun(l.name, Some(l.cron)), New)))
  {
    hide IsDue;
  }

  lemma Calls(env: Env, s: Sys, id: TaskId, op: Op)
    requires id != WORKER && id !in s.tasks && IsCall(op)
    ensures Next(env, s, Call(id, op)) == Some(SetTask(s, id, Task(op, New)))
  {
  }

  lemma Reads(env: Env, s: Sys, id: TaskId, op: Op)
    requires !op.Upload?
    ensures Next(env, SetTask(s, id, Task(op, New)), Read(id, true)) ==
            Some(SetTask(s, id, Task(op, Loaded(s.store, Some(s.edition)))))
  {
    SetTwice(s, id, Task(op, New), Task(op, Loaded(s.store, Some(s.edition))));
  }

  lemma Stamps(env: Env, s: Sys, id: TaskId, op: Op, base: Store, seen: Option<nat>, now: Time, change: Change)
    requires !op.BeginRun? && s.clock <= now && Plan(env, op, base, now) == Some(change)
    ensures Next(env, SetTask(s, id, Task(op, Loaded(base, seen))), Stamp(id, now)) ==
            Some(SetTask(s.(clock := now), id, Task(op, Ready(change, seen))))
  {
    hide Plan;
    SetTwice(s.(clock := now), id, Task(op, Loaded(base, seen)), Task(op, Ready(change, seen)));
  }

  lemma Begins(env: Env, s: Sys, id: TaskId, op: Op, base: Store, seen: Option<nat>, now: Time, list: seq<Schedule>,
               m: Mark)
    requires op.BeginRun? && s.clock <= now && Plan(env, op, base, now) == Some(Schedules(list))
    requires m.schedule == Begin(base.schedules, KeyOf(op), now).snapshot && m.createdAt == now
    requires m.manual == (op.cron == None) && m.cron == if op.cron.Some? then op.cron.value else m.schedule.cron
    ensures Next(env, SetTask(s, id, Task(op, Loaded(base, seen))), Stamp(id, now)) ==
            Some(SetTask(s.(clock := now, marks := s.marks + [m]), id,
                         Task(Upload(|s.marks|), Ready(Schedules(list), seen))))
  {
    hide Begin, KeyOf;
    var after := s.(clock := now, marks := s.marks + [m]);
    SetTwice(after, id, Task(op, Loaded(base, seen)), Task(Upload(|s.marks|), Ready(Schedules(list), seen)));
  }

  lemma Fetches(env: Env, s: Sys, id: TaskId, op: Op, change: Change, seen: Option<nat>)
    ensures Next(env, SetTask(s, id, Task(op, Ready(change, seen))), Fetch(id, true)) ==
            Some(SetTask(s, id, Task(op, Fetched(change, s.store,
                                                 if change.Schedules? then seen else Some(s.edition)))))
  {
    SetTwice(s, id, Task(op, Ready(change, seen)),
      Task(op, Fetched(change, s.store, if change.Schedules? then seen else Some(s.edition))));
  }

  lemma WritesMark(env: Env, s: Sys, id: TaskId, k: nat, list: seq<Schedule>, data: Store, seen: Option<nat>)
    ensures Next(env, SetTask(s, id, Task(Upload(k), Fetched(Schedules(list), data, seen))), Write(id)) ==
            Some(SetTask(s.(store := data.(schedules := list), edition := s.edition + 1, stored := s.stored + {k}), id,
                         Task(Upload(k), New)))
  {
    var after := s.(store := data.(schedules := list), edition := s.edition + 1, stored := s.stored + {k});
    SetTwice(after, id, Task(Upload(k), Fetched(Schedules(list), data, seen)), Task(Upload(k), New));
  }

  lemma WritesSchedules(env: Env, s: Sys, id: TaskId, req: Request, list: seq<Schedule>, data: Store, seen: Option<nat>)
    requires id !in s.tasks
    ensures Next(env, SetTask(s, id, Task(SaveSchedule(req), Fetched(Schedules(list), data, seen))), Write(id)) ==
            Some(s.(store := data.(schedules := list), edition := s.edition + 1))
  {
    EndSet(s.(store := data.(schedules := list), edition := s.edition + 1), id,
      Task(SaveSchedule(req), Fetched(Schedules(list), data, seen)));
  }

  lemma WritesRun(env: Env, s: Sys, id: TaskId, k: nat, run: Run, runs: seq<Run>, data: Store, seen: Option<nat>)
    requires id !in s.tasks
    ensures Next(env, SetTask(s, id, Task(AppendRun(k, run), Fetched(Runs(runs), data, seen))), Write(id)) ==
            Some(s.(store := data.(runs := runs), log := s.log + [Appended(k, run)]))
  {
    EndSet(s.(store := data.(runs := runs), log := s.log + [Appended(k, run)]), id,
      Task(AppendRun(k, run), Fetched(Runs(runs), data, seen)));
  }

  // ── Nothing in between ───────────────────────────────────────────────────

  /** The events of a task that nothing falls into, up to its write. */
  function Undisturbed(id: TaskId, now: Time): seq<Event> {
    [Read(id, true), Stamp(id, now), Fetch(id, true), Write(id)]
  }

  /** It reads and computes. */
  lemma UndisturbedPlan(env: Env, s: Sys, id: TaskId, now: Time) returns (ready: Sys)
    requires id in s.tasks && s.tasks[id].stage.New? && !s.tasks[id].op.Upload? && s.clock <= now
    requires Plan(env, s.tasks[id].op, s.store, now).Some?
    ensures Leads(env, s, [Read(id, true), Stamp(id, now)], ready)
    ensures var op := s.tasks[id].op;
      var stage := Ready(Plan(env, op, s.store, now).value, Some(s.edition));
      if op.BeginRun? then
        && |ready.marks| == |s.marks| + 1
        && ready == SetTask(s.(clock := now, marks := ready.marks), id, Task(Upload(|s.marks|), stage))
        && var m := ready.marks[|s.marks|];
           m.schedule == Begin(s.store.schedules, KeyOf(op), now).snapshot && m.manual == (op.cron == None)
           && m.createdAt == now
      else ready == SetTask(s.(clock := now), id, Task(op, stage))
  {
    var op := s.tasks[id].op;
    assert SetTask(s, id, Task(op, New)) == s;
    var read := SetTask(s, id, Task(op, Loaded(s.store, Some(s.edition))));
    Reads(env, s, id, op);
    var change := Plan(env, op, s.store, now).value;
    if op.BeginRun? {
      var snapshot := Begin(s.store.schedules, KeyOf(op), now).snapshot;
      var m := Mark(snapshot, op.cron == None, if op.cron.Some? then op.cron.value else snapshot.cron, now);
      Begins(env, s, id, op, s.store, Some(s.edition), now, change.schedules, m);
      ready := SetTask(s.(clock := now, marks := s.marks + [m]), id,
        Task(Upload(|s.marks|), Ready(change, Some(s.edition))));
    } else {
      Stamps(env, s, id, op, s.store, Some(s.edition), now, change);
      ready := SetTask(s.(clock := now), id, Task(op, Ready(change, Some(s.edition))));
    }
    hide Next, SetTask, Plan, Begin, KeyOf;
    LeadsByTwo(env, s, Read(id, true), read, Stamp(id, now), ready);
  }

  /** It fetches and writes. */
  lemma UndisturbedWrite(env: Env, s: Sys, id: TaskId) returns (s': Sys)
    requires id in s.tasks && s.tasks[id].stage.Ready?
    ensures Leads(env, s, [Fetch(id, true), Write(id)], s')
    ensures s'.store == Merge(s.tasks[id].stage.change, s.store)
    ensures s'.clock == s.clock && s'.worker == s.worker && s'.marks == s.marks
    ensures s'.tasks == if s.tasks[id].op.Upload? then s.tasks[id := Task(s.tasks[id].op, New)] else s.tasks - {id}
  {
    hide Merge, Requested;
    var fetched := Next(env, s, Fetch(id, true)).value;
    assert fetched.tasks - {id} == s.tasks - {id};
    s' := Next(env, fetched, Write(id)).value;
    hide Next;
    LeadsByTwo(env, s, Fetch(id, true), fetched, Write(id), s');
  }

  /** Such a task stores what it computes from the stored map, whichever task it is. */
  lemma UndisturbedTask(env: Env, s: Sys, id: TaskId, now: Time) returns (s': Sys)
    requires id in s.tasks && s.tasks[id].stage.New? && !s.tasks[id].op.Upload? && s.clock <= now
    requires Plan(env, s.tasks[id].op, s.store, now).Some?
    ensures Leads(env, s, Undisturbed(id, now), s') && s'.clock == now && s'.worker == s.worker
    ensures s'.store == Merge(Plan(env, s.tasks[id].op, s.store, now).value, s.store)
    ensures var op := s.tasks[id].op;
      if op.BeginRun? then
        && s'.tasks == s.tasks[id := Task(Upload(|s.marks|), New)] && |s'.marks| == |s.marks| + 1
        && var m := s'.marks[|s.marks|];
           m.schedule == Begin(s.store.schedules, KeyOf(op), now).snapshot && m.manual == (op.cron == None)
           && m.createdAt == now
      else s'.tasks == s.tasks - {id} && s'.marks == s.marks
  {
    hide Plan, Begin, KeyOf, Merge, Leads;
    var ready := UndisturbedPlan(env, s, id, now);
    s' := UndisturbedWrite(env, ready, id);
    LeadsOn(env, s, [Read(id, true), Stamp(id, now)], ready, [Fetch(id, true), Write(id)], s');
    assert [Read(id, true), Stamp(id, now)] + [Fetch(id, true), Write(id)] == Undisturbed(id, now);
    assert ready.tasks - {id} == s.tasks - {id};
  }

  /** The turn of a schedule that is due and can be run, its upload and the end, with nothing in between. */
  function WholeTurn(t: Turn): seq<Event> {
    [TakeTurn(t.check)] + Undisturbed(WORKER, t.now) + [EndUpload(WORKER, t.upload)] + Undisturbed(WORKER, t.now)
  }

  lemma TurnIs(env: Env, store: Store, l: Schedule, t: Turn)
    requires IsDue(env, l, t.check) && Begin(store.schedules, l.name, t.now).Marked?
    ensures var begun := Begin(store.schedules, l.name, t.now);
      TurnOf(env, store, l, t) ==
      Store(begun.schedules, KeepLast(store.runs + [RunOf(env, begun.snapshot, false, t.now, t.upload)]))
  {
    hide IsDue, RunOf, KeepLast;
  }

  lemma EndsUploading(env: Env, s: Sys, id: TaskId, k: nat, upload: Option<Uploaded>)
    requires id in s.tasks && s.tasks[id] == Task(Upload(k), New) && k < |s.marks|
    ensures var m := s.marks[k];
      Next(env, s, EndUpload(id, upload)) ==
      Some(SetTask(s, id, Task(AppendRun(k, RunOf(env, m.schedule, m.manual, m.createdAt, upload)), New)))
  {
    hide RunOf;
  }

  /** Such a turn is the run that the handler's method makes. */
  lemma UndisturbedTurn(env: Env, s: Sys, t: Turn) returns (s': Sys)
    requires WORKER !in s.tasks && s.worker.next < |s.worker.loaded| && s.clock <= t.check <= t.now
    requires var l := s.worker.loaded[s.worker.next];
      IsDue(env, l, t.check) && Begin(s.store.schedules, l.name, t.now).Marked?
    ensures Leads(env, s, WholeTurn(t), s') && WORKER !in s'.tasks
    ensures s'.store == TurnOf(env, s.store, s.worker.loaded[s.worker.next], t)
  {
    hide Next, IsDue, Undisturbed, Leads, RunOf, KeepLast, Begin, TurnOf;
    var l := s.worker.loaded[s.worker.next];
    TurnIs(env, s.store, l, t);
    var taken := SetTask(s.(worker := s.worker.(next := s.worker.next + 1), clock := t.check), WORKER,
      Task(BeginRun(l.name, Some(l.cron)), New));
    Turns(env, s, t.check, l, s.worker.(next := s.worker.next + 1));
    LeadsByOne(env, s, TakeTurn(t.check), taken);
    var begun := UndisturbedTask(env, taken, WORKER, t.now);
    LeadsOn(env, s, [TakeTurn(t.check)], taken, Undisturbed(WORKER, t.now), begun);
    EndsUploading(env, begun, WORKER, |s.marks|, t.upload);
    var uploaded := Next(env, begun, EndUpload(WORKER, t.upload)).value;
    LeadsByOne(env, begun, EndUpload(WORKER, t.upload), uploaded);
    LeadsOn(env, s, [TakeTurn(t.check)] + Undisturbed(WORKER, t.now), begun, [EndUpload(WORKER, t.upload)], uploaded);
    s' := UndisturbedTask(env, uploaded, WORKER, t.now);
    LeadsOn(env, s, [TakeTurn(t.check)] + Undisturbed(WORKER, t.now) + [EndUpload(WORKER, t.upload)], uploaded,
      Undisturbed(WORKER, t.now), s');
  }

  // ── Two uploads that end together ────────────────────────────────────────

  /** Both ends read the stored runs before either writes. */
  function Overlapping(a: TaskId, b: TaskId, now: Time): seq<Event> {
    [Read(a, true), Read(b, true), Stamp(a, now), Stamp(b, now), Fetch(a, true), Write(a), Fetch(b, true), Write(b)]
  }

  lemma BothRead(env: Env, s: Sys, a: TaskId, b: TaskId, k: nat, j: nat, run: Run, other: Run)
    requires a in s.tasks && b in s.tasks && a != b
    requires s.tasks[a] == Task(AppendRun(k, run), New) && s.tasks[b] == Task(AppendRun(j, other), New)
    ensures var seen := Some(s.edition);
      Leads(env, s, [Read(a, true), Read(b, true)],
        SetTask(SetTask(s, a, Task(AppendRun(k, run), Loaded(s.store, seen))), b,
          Task(AppendRun(j, other), Loaded(s.store, seen))))
  {
    var seen := Some(s.edition);
    var s1 := SetTask(s, a, Task(AppendRun(k, run), Loaded(s.store, seen)));
    var s2 := SetTask(s1, b, Task(AppendRun(j, other), Loaded(s.store, seen)));
    assert Next(env, s, Read(a, true)) == Some(s1) && Next(env, s1, Read(b, true)) == Some(s2);
    hide Next;
    LeadsByTwo(env, s, Read(a, true), s1, Read(b, true), s2);
  }

  lemma BothStamp(env: Env, s: Sys, a: TaskId, b: TaskId, k: nat, j: nat, run: Run, other: Run)
    requires a != b
    ensures var seen := Some(s.edition);
      Leads(env,
        SetTask(SetTask(s, a, Task(AppendRun(k, run), Loaded(s.store, seen))), b,
          Task(AppendRun(j, other), Loaded(s.store, seen))),
        [Stamp(a, s.clock), Stamp(b, s.clock)],
        SetTask(SetTask(s, a, Task(AppendRun(k, run), Ready(Runs(KeepLast(s.store.runs + [run])), seen))), b,
          Task(AppendRun(j, other), Ready(Runs(KeepLast(s.store.runs + [other])), seen))))
  {
    hide KeepLast;
    var seen := Some(s.edition);
    var loaded := Task(AppendRun(k, run), Loaded(s.store, seen));
    var loaded' := Task(AppendRun(j, other), Loaded(s.store, seen));
    var ready := Task(AppendRun(k, run), Ready(Runs(KeepLast(s.store.runs + [run])), seen));
    var ready' := Task(AppendRun(j, other), Ready(Runs(KeepLast(s.store.runs + [other])), seen));
    var s2, s3 := SetTask(SetTask(s, a, loaded), b, loaded'), SetTask(SetTask(s, a, ready), b, loaded');
    var s4 := SetTask(SetTask(s, a, ready), b, ready');
    assert s2.tasks[a := ready] == s3.tasks && s3.tasks[b := ready'] == s4.tasks;
    assert Next(env, s2, Stamp(a, s.clock)) == Some(s3) && Next(env, s3, Stamp(b, s.clock)) == Some(s4);
    hide Next, SetTask;
    LeadsByTwo(env, s2, Stamp(a, s.clock), s3, Stamp(b, s.clock), s4);
  }

  /** One of the two is written, whatever is stored by then. */
  lemma WritesItsRuns(env: Env, s: Sys, id: TaskId, k: nat, run: Run) returns (s': Sys)
    requires id in s.tasks && s.tasks[id].op == AppendRun(k, run) && s.tasks[id].stage.Ready?
    requires s.tasks[id].stage.change.Runs?
    ensures Leads(env, s, [Fetch(id, true), Write(id)], s')
    ensures s'.tasks == s.tasks - {id} && s'.log == s.log + [Appended(k, run)]
    ensures s'.store == s.store.(runs := s.tasks[id].stage.change.runs)
  {
    var fetched := Next(env, s, Fetch(id, true)).value;
    assert fetched.tasks - {id} == s.tasks - {id};
    s' := Next(env, fetched, Write(id)).value;
    hide Next;
    LeadsByTwo(env, s, Fetch(id, true), fetched, Write(id), s');
  }

  /** From every state in which two uploads have ended, the run of one can be lost. */
  lemma OverlappingEndsLoseARun(env: Env, s: Sys, a: TaskId, b: TaskId, k: nat, j: nat, run: Run, other: Run)
      returns (s': Sys)
    requires a in s.tasks && b in s.tasks && a != b
    requires s.tasks[a] == Task(AppendRun(k, run), New) && s.tasks[b] == Task(AppendRun(j, other), New)
    ensures Leads(env, s, Overlapping(a, b, s.clock), s')
    ensures s'.log == s.log + [Appended(k, run), Appended(j, other)]
    ensures s'.store == s.store.(runs := KeepLast(s.store.runs + [other]))
  {
    var seen := Some(s.edition);
    var ready, ready' := Runs(KeepLast(s.store.runs + [run])), Runs(KeepLast(s.store.runs + [other]));
    var s2 := SetTask(SetTask(s, a, Task(AppendRun(k, run), Loaded(s.store, seen))), b,
      Task(AppendRun(j, other), Loaded(s.store, seen)));
    var s4 := SetTask(SetTask(s, a, Task(AppendRun(k, run), Ready(ready, seen))), b,
      Task(AppendRun(j, other), Ready(ready', seen)));
    BothRead(env, s, a, b, k, j, run, other);
    BothStamp(env, s, a, b, k, j, run, other);
    var s6 := WritesItsRuns(env, s4, a, k, run);
    s' := WritesItsRuns(env, s6, b, j, other);
    hide KeepLast, Leads;
    LeadsOn(env, s, [Read(a, true), Read(b, true)], s2, [Stamp(a, s.clock), Stamp(b, s.clock)], s4);
    var events := [Read(a, true), Read(b, true)] + [Stamp(a, s.clock), Stamp(b, s.clock)];
    LeadsOn(env, s, events, s4, [Fetch(a, true), Write(a)], s6);
    LeadsOn(env, s, events + [Fetch(a, true), Write(a)], s6, [Fetch(b, true), Write(b)], s');
    assert events + [Fetch(a, true), Write(a)] + [Fetch(b, true), Write(b)] == Overlapping(a, b, s.clock);
  }

  // ── Two histories in which a run repeats without a tick ──────────────────

  /** Every expression parses and ticks once, at 10. */
  const ONE_TICK := Env(_ => true, (cron, k) => k == 10, (cron, t) => if t < 10 then Some(10) else None, t => "")

  function Stars(n: nat): string {
    if n <= 1 then "*" else "* " + Stars(n - 1)
  }

  /** Six fields, each a star. */
  const CRON := Stars(6)

  lemma {:induction false} StarsFields(n: nat)
    requires n >= 1
    ensures Fields(Stars(n), false) == n
    ensures var s := Stars(n); s != "" && s[0] == '*' && s[|s| - 1] == '*'
  {
    if n == 1 {
      assert "*"[1..] == "";
    } else {
      var rest := Stars(n - 1);
      StarsFields(n - 1);
      assert Stars(n) == "* " + rest && ("* " + rest)[1..] == " " + rest && (" " + rest)[1..] == rest;
      assert Fields("* " + rest, false) == 1 + Fields(" " + rest, true);
    }
  }

  lemma CronIsNormal()
    ensures NormalizeCron(Trim(CRON)) == Some(CRON)
  {
    StarsFields(6);
    hide Stars, Fields;
    assert Trimmed(CRON);
    TrimResult(CRON);
    hide Trim, Trimmed;
  }

  lemma NamesAreTrimmed()
    ensures Trim("a") == "a" && Trim("b") == "b"
  {
    TrimResult("a");
    TrimResult("b");
  }

  const A := Schedule("a", CRON, "", false, [], [], 0, None)
  const A10 := Schedule("a", CRON, "", false, [], [], 10, Some(10))
  const A11 := Schedule("a", CRON, "", false, [], [], 11, Some(11))
  const ONLY_A := Store([A], [])
  const DUE_A := BeginRun("a", Some(CRON))
  const FIRST_POLL := Worker([A], 0, 0, {})
  const A12 := Schedule("a", CRON, "", false, [], [], 12, Some(12))
  const START := Sys(ONLY_A, 0, NO_POLL, map[], [], {}, [], 0)

  /** What the tasks below compute. */
  lemma PlansOfA(now: Time, schedules: seq<Schedule>, runs: seq<Run>, op: Op)
    requires schedules != [] && schedules[0].name == "a" && !schedules[0].paused
    requires op == DUE_A || op == BeginRun("a", None)
    ensures Begin(schedules, "a", now).snapshot == schedules[0] && KeyOf(op) == "a"
    ensures var plan := Plan(ONE_TICK, op, Store(schedules, runs), now);
      plan == Some(Schedules([MarkRun(schedules[0], now)] + schedules[1..]))
  {
    NamesAreTrimmed();
    hide Trim, Stars;
    assert schedules[0 := MarkRun(schedules[0], now)] == [MarkRun(schedules[0], now)] + schedules[1..];
  }

  lemma AIsDue(check: Time)
    requires check >= 10
    ensures IsDue(ONE_TICK, A, check)
  {
    CronIsNormal();
    hide Trim, NormalizeCron, Stars;
  }

  // A run by hand after the load

  const BY_HAND := Mark(A, true, CRON, 11)
  const AFTER_HAND := Mark(A11, false, CRON, 12)
  const HAND := BeginRun("a", None)
  const LOADED := START.(worker := FIRST_POLL)
  const HAND_BEGUN := LOADED.(marks := [BY_HAND], clock := 11)
  const HAND_STORED := HAND_BEGUN.(store := Store([A11], []), edition := 1, stored := {0})
  const UPLOADED_BY_HAND := SetTask(HAND_STORED, 1, Task(Upload(0), New))
  const TURN := UPLOADED_BY_HAND.(worker := FIRST_POLL.(next := 1), clock := 12)

  function HandEvent(i: nat): Event {
    match i
    case 0 => Load(true)
    case 1 => Call(1, HAND)
    case 2 => Read(1, true)
    case 3 => Stamp(1, 11)
    case 4 => Fetch(1, true)
    case 5 => Write(1)
    case 6 => TakeTurn(12)
    case 7 => Read(WORKER, true)
    case _ => Stamp(WORKER, 12)
  }

  function HandState(i: nat): Sys {
    match i
    case 0 => START
    case 1 => LOADED
    case 2 => SetTask(LOADED, 1, Task(HAND, New))
    case 3 => SetTask(LOADED, 1, Task(HAND, Loaded(ONLY_A, Some(0))))
    case 4 => SetTask(HAND_BEGUN, 1, Task(Upload(0), Ready(Schedules([A11]), Some(0))))
    case 5 => SetTask(HAND_BEGUN, 1, Task(Upload(0), Fetched(Schedules([A11]), ONLY_A, Some(0))))
    case 6 => UPLOADED_BY_HAND
    case 7 => SetTask(TURN, WORKER, Task(DUE_A, New))
    case 8 => SetTask(TURN, WORKER, Task(DUE_A, Loaded(Store([A11], []), Some(1))))
    case _ =>
      SetTask(TURN.(marks := [BY_HAND, AFTER_HAND]), WORKER, Task(Upload(1), Ready(Schedules([A12]), Some(1))))
  }

  lemma HandTurn()
    ensures Next(ONE_TICK, HandState(6), HandEvent(6)) == Some(HandState(7))
  {
    hide Next, IsDue, Stars;
    AIsDue(12);
    assert UPLOADED_BY_HAND.worker == FIRST_POLL && WORKER !in UPLOADED_BY_HAND.tasks;
    hide SetTask;
    Turns(ONE_TICK, UPLOADED_BY_HAND, 12, A, FIRST_POLL.(next := 1));
  }

  lemma HandBegins(i: nat)
    requires i == 3 || i == 8
    ensures Next(ONE_TICK, HandState(i), HandEvent(i)) == Some(HandState(i + 1))
  {
    hide Stars;
    if i == 3 {
      PlansOfA(11, [A], [], HAND);
      assert [MarkRun(A, 11)] + [A][1..] == [A11] && [] + [BY_HAND] == [BY_HAND];
      hide Next, Plan, Begin, KeyOf, Stars, SetTask;
      Begins(ONE_TICK, LOADED, 1, HAND, ONLY_A, Some(0), 11, [A11], BY_HAND);
    } else {
      PlansOfA(12, [A11], [], DUE_A);
      assert [MarkRun(A11, 12)] + [A11][1..] == [A12] && [BY_HAND] + [AFTER_HAND] == [BY_HAND, AFTER_HAND];
      hide Next, Plan, Begin, KeyOf, Stars, SetTask;
      Begins(ONE_TICK, TURN, WORKER, DUE_A, Store([A11], []), Some(1), 12, [A12], AFTER_HAND);
    }
  }

  lemma HandStep(i: nat)
    requires i < 9
    ensures Next(ONE_TICK, HandState(i), HandEvent(i)) == Some(HandState(i + 1))
  {
    hide Next, Stars;
    if i == 0 {
      Loads(ONE_TICK, START);
    } else if i == 1 {
      Calls(ONE_TICK, LOADED, 1, HAND);
    } else if i == 6 {
      HandTurn();
    } else if i == 3 || i == 8 {
      HandBegins(i);
    } else if i == 2 {
      Reads(ONE_TICK, LOADED, 1, HAND);
    } else if i == 7 {
      Reads(ONE_TICK, TURN, WORKER, DUE_A);
    } else if i == 4 {
      Fetches(ONE_TICK, HAND_BEGUN, 1, Upload(0), Schedules([A11]), Some(0));
    } else {
      assert {} + {0} == {0 as nat};
      WritesMark(ONE_TICK, HAND_BEGUN, 1, 0, [A11], ONLY_A, Some(0));
    }
  }

  lemma AIsRunnable()
    ensures Runnable(ONE_TICK, A)
  {
    CronIsNormal();
    hide Stars, NormalizeCron, Trim;
  }

  /**
   * A run of `a` by hand, at 11 and after the poll loaded its list, is followed by a scheduled run at
   * 12, although the cron ticked at 10 and never again. No write was based on an older list.
   */
  lemma RunRepeatsWithoutTick() returns (events: seq<Event>, states: seq<Sys>)
    ensures IsCron(ONE_TICK) && IsHistory(ONE_TICK, events, states) && AllKeepSchedules(events, states, |events|)
    ensures states[|events|].marks == [BY_HAND, AFTER_HAND] && !Separated(ONE_TICK, states[|events|].marks, false)
  {
    hide Next, Stars, Runnable;
    events := seq(9, i requires 0 <= i => HandEvent(i));
    states := seq(10, i requires 0 <= i => HandState(i));
    AIsRunnable();
    assert states[0] == HandState(0);
    forall i | 0 <= i < 9 ensures Next(ONE_TICK, states[i], events[i]) == Some(states[i + 1]) {
      hide HandState, HandEvent;
      HandStep(i);
    }
    assert forall i :: 0 <= i < 9 && i != 5 ==> !events[i].Write?;
    assert states[5] == HandState(5) && states[9] == HandState(9);
    var marks := states[9].marks;
    assert Counts(marks[0], marks[1].schedule.name, false) && !Separates(ONE_TICK, marks, 0, 1);
  }

  // An edit of another schedule that is based on an older list

  const REQUEST := Request("b", CRON, "", false, [], [])
  const EDIT := SaveSchedule(REQUEST)
  const B5 := Schedule("b", CRON, "", false, [], [], 5, None)
  const WITH_B := Schedules([A, B5])
  const FIRST_MARK := Mark(A, false, CRON, 10)
  const SECOND_MARK := Mark(A, false, CRON, 12)
  const FIRST_RUN := RunOf(ONE_TICK, A, false, 10, None)
  const END := AppendRun(0, FIRST_RUN)
  const TAKEN := Worker([A], 1, 0, {})

  /** The edit is computed; the poll loads the list, begins the run of `a` and stores its mark. */
  const EDITED := SetTask(START.(clock := 5), 1, Task(EDIT, Ready(WITH_B, Some(0))))
  const DECIDED := EDITED.(worker := TAKEN, clock := 10)
  const BEGUN := DECIDED.(marks := [FIRST_MARK])
  const MARKED := BEGUN.(store := Store([A10], []), edition := 1, stored := {0})
  /** The edit is written, and with it `a` as it was before its run; the poll ends the run. */
  const UPLOADING := START.(worker := TAKEN, clock := 10, marks := [FIRST_MARK], stored := {0}, store := MARKED.store,
                            edition := 1)
  const LOST := UPLOADING.(store := Store([A, B5], []), edition := 2)
  const OVER := LOST.(store := Store([A, B5], [FIRST_RUN]), log := [Appended(0, FIRST_RUN)])
  /** The next poll decides to run `a` once more. */
  const POLLING := OVER.(worker := Worker([A, B5], 0, 1, {0}))
  const AGAIN := POLLING.(worker := Worker([A, B5], 1, 1, {0}), clock := 12)

  function LostEvent(i: nat): Event {
    match i
    case 0 => Call(1, EDIT)
    case 1 => Read(1, true)
    case 2 => Stamp(1, 5)
    case 3 => Load(true)
    case 4 => TakeTurn(10)
    case 5 => Read(WORKER, true)
    case 6 => Stamp(WORKER, 10)
    case 7 => Fetch(WORKER, true)
    case 8 => Write(WORKER)
    case 9 => Fetch(1, true)
    case 10 => Write(1)
    case 11 => EndUpload(WORKER, None)
    case 12 => Read(WORKER, true)
    case 13 => Stamp(WORKER, 10)
    case 14 => Fetch(WORKER, true)
    case 15 => Write(WORKER)
    case 16 => Load(true)
    case 17 => TakeTurn(12)
    case 18 => Read(WORKER, true)
    case _ => Stamp(WORKER, 12)
  }

  /** Until the mark is stored. */
  function EditState(i: nat): Sys {
    match i
    case 0 => START
    case 1 => SetTask(START, 1, Task(EDIT, New))
    case 2 => SetTask(START, 1, Task(EDIT, Loaded(ONLY_A, Some(0))))
    case 3 => EDITED
    case 4 => EDITED.(worker := FIRST_POLL)
    case 5 => SetTask(DECIDED, WORKER, Task(DUE_A, New))
    case 6 => SetTask(DECIDED, WORKER, Task(DUE_A, Loaded(ONLY_A, Some(0))))
    case 7 => SetTask(BEGUN, WORKER, Task(Upload(0), Ready(Schedules([A10]), Some(0))))
    case 8 => SetTask(BEGUN, WORKER, Task(Upload(0), Fetched(Schedules([A10]), ONLY_A, Some(0))))
    case _ => SetTask(MARKED, WORKER, Task(Upload(0), New))
  }

  /** The worker's task while it uploads. */
  const WAITING := SetTask(UPLOADING, WORKER, Task(Upload(0), New))

  function LostState(i: nat): Sys {
    match i
    case 9 => SetTask(WAITING, 1, Task(EDIT, Ready(WITH_B, Some(0))))
    case 10 => SetTask(WAITING, 1, Task(EDIT, Fetched(WITH_B, MARKED.store, Some(0))))
    case 11 => SetTask(LOST, WORKER, Task(Upload(0), New))
    case 12 => SetTask(LOST, WORKER, Task(END, New))
    case 13 => SetTask(LOST, WORKER, Task(END, Loaded(LOST.store, Some(2))))
    case 14 => SetTask(LOST, WORKER, Task(END, Ready(Runs([FIRST_RUN]), Some(2))))
    case 15 => SetTask(LOST, WORKER, Task(END, Fetched(Runs([FIRST_RUN]), LOST.store, Some(2))))
    case 16 => OVER
    case 17 => POLLING
    case 18 => SetTask(AGAIN, WORKER, Task(DUE_A, New))
    case 19 => SetTask(AGAIN, WORKER, Task(DUE_A, Loaded(OVER.store, Some(2))))
    case 20 =>
      SetTask(AGAIN.(marks := [FIRST_MARK, SECOND_MARK]), WORKER,
        Task(Upload(1), Ready(Schedules([A12, B5]), Some(2))))
    case _ => EditState(i)
  }

  lemma EditIsPlanned()
    ensures Plan(ONE_TICK, EDIT, ONLY_A, 5) == Some(WITH_B)
  {
    hide Stars;
    CronIsNormal();
    NamesAreTrimmed();
    hide Trim, NormalizeCron;
    assert [A] + [B5] == [A, B5];
  }

  lemma EditBegins(i: nat)
    requires i == 2 || i == 6
    ensures Next(ONE_TICK, EditState(i), LostEvent(i)) == Some(EditState(i + 1))
  {
    hide Next, Plan, Stars;
    if i == 2 {
      EditIsPlanned();
      Stamps(ONE_TICK, START, 1, EDIT, ONLY_A, Some(0), 5, WITH_B);
    } else {
      PlansOfA(10, [A], [], DUE_A);
      assert [MarkRun(A, 10)] + [A][1..] == [A10] && [] + [FIRST_MARK] == [FIRST_MARK];
      hide Begin, KeyOf, SetTask;
      DecidedIs();
      Begins(ONE_TICK, DECIDED, WORKER, DUE_A, ONLY_A, Some(0), 10, [A10], FIRST_MARK);
    }
  }

  lemma DecidedIs()
    ensures DECIDED.marks == [] && DECIDED.clock == 10 && DECIDED.store == ONLY_A && DECIDED.edition == 0
    ensures BEGUN == DECIDED.(clock := 10, marks := [FIRST_MARK]) && EDITED.worker == NO_POLL && EDITED.marks == []
    ensures WORKER !in EDITED.tasks && EDITED.store == ONLY_A && EDITED.clock == 5 && EDITED.stored == {}
    ensures MARKED == BEGUN.(store := Store([A10], []), edition := BEGUN.edition + 1, stored := BEGUN.stored + {0})
  {
    hide Stars;
    assert {} + {0} == {0 as nat};
  }

  lemma EditStep(i: nat)
    requires i < 9
    ensures Next(ONE_TICK, EditState(i), LostEvent(i)) == Some(EditState(i + 1))
  {
    hide Next, Stars, IsDue, Plan;
    DecidedIs();
    hide SetTask;
    if i == 0 {
      Calls(ONE_TICK, START, 1, EDIT);
    } else if i == 1 {
      Reads(ONE_TICK, START, 1, EDIT);
    } else if i == 2 || i == 6 {
      EditBegins(i);
    } else if i == 3 {
      Loads(ONE_TICK, EDITED);
    } else if i == 4 {
      AIsDue(10);
      Turns(ONE_TICK, EDITED.(worker := FIRST_POLL), 10, A, TAKEN);
    } else if i == 5 {
      Reads(ONE_TICK, DECIDED, WORKER, DUE_A);
    } else if i == 7 {
      Fetches(ONE_TICK, BEGUN, WORKER, Upload(0), Schedules([A10]), Some(0));
    } else {
      WritesMark(ONE_TICK, BEGUN, WORKER, 0, [A10], ONLY_A, Some(0));
    }
  }

  /** The two ways to write the state in the middle are the same. */
  lemma Middle()
    ensures EditState(9) == LostState(9)
  {
    hide Stars;
    assert EditState(9).tasks == LostState(9).tasks;
  }

  lemma LostEnds(i: nat)
    requires 11 <= i < 16
    ensures Next(ONE_TICK, LostState(i), LostEvent(i)) == Some(LostState(i + 1))
  {
    hide Next, Stars, RunOf, Plan, SetTask;
    if i == 11 {
      EndsUpload();
    } else if i == 12 {
      Reads(ONE_TICK, LOST, WORKER, END);
    } else if i == 13 {
      assert [] + [FIRST_RUN] == [FIRST_RUN];
      Stamps(ONE_TICK, LOST, WORKER, END, LOST.store, Some(2), 10, Runs([FIRST_RUN])) by {
        RunIsPlanned();
      }
    } else if i == 14 {
      Fetches(ONE_TICK, LOST, WORKER, END, Runs([FIRST_RUN]), Some(2));
    } else {
      assert [] + [Appended(0, FIRST_RUN)] == [Appended(0, FIRST_RUN)];
      WritesRun(ONE_TICK, LOST, WORKER, 0, FIRST_RUN, [FIRST_RUN], LOST.store, Some(2));
    }
  }

  lemma RunIsPlanned()
    ensures Plan(ONE_TICK, END, LOST.store, 10) == Some(Runs([FIRST_RUN]))
  {
    hide Stars, RunOf;
    assert [] + [FIRST_RUN] == [FIRST_RUN];
  }

  lemma EndsUpload()
    ensures Next(ONE_TICK, LostState(11), LostEvent(11)) == Some(LostState(12))
  {
    hide Stars, RunOf;
    SetTwice(LOST, WORKER, Task(Upload(0), New), Task(END, New));
  }

  lemma LostStep(i: nat)
    requires 9 <= i < 20
    ensures Next(ONE_TICK, LostState(i), LostEvent(i)) == Some(LostState(i + 1))
  {
    hide Next, Stars, RunOf, IsDue, Plan;
    if i == 9 {
      Fetches(ONE_TICK, WAITING, 1, EDIT, WITH_B, Some(0));
    } else if i == 10 {
      WritesSchedules(ONE_TICK, WAITING, 1, REQUEST, [A, B5], MARKED.store, Some(0));
    } else if i < 16 {
      LostEnds(i);
    } else if i == 16 {
      Loads(ONE_TICK, OVER);
    } else if i == 17 {
      AIsDue(12);
      Turns(ONE_TICK, POLLING, 12, A, AGAIN.worker);
    } else if i == 18 {
      Reads(ONE_TICK, AGAIN, WORKER, DUE_A);
    } else {
      PlansOfA(12, [A, B5], [FIRST_RUN], DUE_A);
      assert [MarkRun(A, 12)] + [A, B5][1..] == [A12, B5] && [FIRST_MARK] + [SECOND_MARK] == [FIRST_MARK, SECOND_MARK];
      hide Begin, KeyOf, SetTask;
      Begins(ONE_TICK, AGAIN, WORKER, DUE_A, OVER.store, Some(2), 12, [A12, B5], SECOND_MARK);
    }
  }

  /** The write of the edit is based on an older list; all other writes are not. */
  lemma OneWriteIsOld(i: nat)
    requires i < 20
    ensures KeepsSchedules(LostState(i), LostEvent(i)) <==> i != 10
  {
    hide Stars, RunOf;
    if i == 8 {
      assert LostState(8).edition == 0;
    }
  }

  /**
   * An edit of `b` that was computed before the run of `a` is written after it, and with it the mark
   * of the run is lost: `a` is run at 10 and again at 12, although its cron ticked at 10 only.
   */
  lemma EditLosesAMark() returns (events: seq<Event>, states: seq<Sys>)
    ensures IsCron(ONE_TICK) && IsHistory(ONE_TICK, events, states) && |events| == 20
    ensures forall i :: 0 <= i < 20 ==> (KeepsSchedules(states[i], events[i]) <==> i != 10)
    ensures states[20].marks == [FIRST_MARK, SECOND_MARK] && !Separated(ONE_TICK, states[20].marks, true)
  {
    hide Next, Stars, Runnable, RunOf, SetTask, KeepsSchedules, LostEvent, EditState;
    events := seq(20, i requires 0 <= i => LostEvent(i));
    states := seq(21, i requires 0 <= i => LostState(i));
    AIsRunnable();
    assert Initial(ONE_TICK, states[0]) by {
      FirstState();
    }
    forall i | 0 <= i < 20 ensures Next(ONE_TICK, states[i], events[i]) == Some(states[i + 1]) {
      if i < 9 {
        EditStep(i);
        Middle();
      } else {
        LostStep(i);
      }
    }
    forall i | 0 <= i < 20 ensures KeepsSchedules(states[i], events[i]) <==> i != 10 {
      OneWriteIsOld(i);
    }
    LastMarks();
    var marks := states[20].marks;
    assert Counts(marks[0], marks[1].schedule.name, true) && !Separates(ONE_TICK, marks, 0, 1);
  }

  lemma FirstState()
    ensures LostState(0) == START
  {
    hide Stars, RunOf;
  }

  lemma LastMarks()
    ensures LostState(20).marks == [FIRST_MARK, SECOND_MARK]
  {
    hide Stars, RunOf;
  }
}
