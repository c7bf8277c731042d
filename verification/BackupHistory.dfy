/**
 * What holds in the histories of the backup tasks: when a tick lies between the runs of a schedule,
 * which runs the stored history has, and under which conditions a lost write does no harm.
 */
module BackupHistory {
  import opened BackupScheduler
  import opened BackupTasks
  import opened Strings
  import opened Wrappers

  // ── Runs and ticks ───────────────────────────────────────────────────────

  /** With `scheduled`, runs by hand do not count. */
  predicate Counts(m: Mark, name: string, scheduled: bool) {
    m.schedule.name == name && (scheduled ==> !m.manual)
  }

  /** A tick separates the scheduled run `j` from the earlier run `i`. */
  ghost predicate Separates(env: Env, marks: seq<Mark>, i: nat, j: nat)
    requires i < j < |marks|
  {
    TickBetween(env, marks[j].cron, marks[i].createdAt, marks[j].createdAt)
  }

  /** Between any run of a schedule (with `scheduled`, any scheduled one) and a later scheduled run there was a tick. */
  ghost predicate Separated(env: Env, marks: seq<Mark>, scheduled: bool) {
    forall i, j :: 0 <= i < j < |marks| && !marks[j].manual && Counts(marks[i], marks[j].schedule.name, scheduled) ==>
      Separates(env, marks, i, j)
  }

  /** When the schedule last ran. */
  function LastRun(marks: seq<Mark>, name: string, scheduled: bool): Option<Time> {
    if marks == [] then None
    else
      var last := marks[|marks| - 1];
      if Counts(last, name, scheduled) then Some(last.createdAt) else LastRun(marks[..|marks| - 1], name, scheduled)
  }

  /** The worker's own test, with the time of a run as the baseline. */
  predicate DueSince(env: Env, cron: string, run: Time, now: Time) {
    env.next(cron, run).Some? && env.next(cron, run).value <= now
  }

  /** The event begins the run that the poll has decided on. */
  predicate BeginsRun(env: Env, s: Sys, e: Event) {
    && e.Stamp? && e.id == WORKER && Beginning(s) && s.tasks[WORKER].stage.Loaded?
    && s.tasks[WORKER].op.cron.Some? && Next(env, s, e).Some?
    && Plan(env, s.tasks[WORKER].op, s.tasks[WORKER].stage.base, e.now).Some?
  }

  /** The run that begins is not due, counted from the last run of its schedule. */
  predicate RunsEarly(env: Env, s: Sys, e: Event, scheduled: bool) {
    && BeginsRun(env, s, e)
    && var op := s.tasks[WORKER].op;
       var last := LastRun(s.marks, op.name, scheduled);
       last.Some? && !DueSince(env, op.cron.value, last.value, e.now)
  }

  lemma DueSinceExactly(env: Env, cron: string, run: Time, now: Time)
    requires IsCron(env) && env.parses(cron)
    ensures DueSince(env, cron, run, now) <==> TickBetween(env, cron, run, now)
  {
    var n := env.next(cron, run);
    if n.Some? && n.value <= now {
      assert env.tick(cron, n.value);
    }
  }

  lemma {:induction false} LastRunIsLast(marks: seq<Mark>, name: string, scheduled: bool)
    requires forall i, j :: 0 <= i <= j < |marks| ==> marks[i].createdAt <= marks[j].createdAt
    ensures var last := LastRun(marks, name, scheduled);
      if last == None then forall i :: 0 <= i < |marks| ==> !Counts(marks[i], name, scheduled)
      else
        && (exists i :: 0 <= i < |marks| && Counts(marks[i], name, scheduled) && marks[i].createdAt == last.value)
        && forall i :: 0 <= i < |marks| && Counts(marks[i], name, scheduled) ==> marks[i].createdAt <= last.value
  {
    hide Counts;
    if marks == [] {
    } else {
      var init, last := marks[..|marks| - 1], LastRun(marks, name, scheduled);
      LastRunIsLast(init, name, scheduled);
      forall i | 0 <= i < |marks| && Counts(marks[i], name, scheduled)
        ensures last.Some? && marks[i].createdAt <= last.value
      {
        assert i < |init| ==> init[i] == marks[i];
      }
      if !Counts(marks[|marks| - 1], name, scheduled) && LastRun(init, name, scheduled).Some? {
        var i :| 0 <= i < |init| && Counts(init[i], name, scheduled)
          && init[i].createdAt == LastRun(init, name, scheduled).value;
        assert marks[i] == init[i];
      }
    }
  }

  /** What the worker adds when it begins a run. */
  lemma BeginAdds(env: Env, s: Sys, e: Event)
    requires BeginsRun(env, s, e)
    ensures var s', op := Next(env, s, e).value, s.tasks[WORKER].op;
      && |s'.marks| == |s.marks| + 1 && s'.marks[..|s.marks|] == s.marks
      && var m := s'.marks[|s.marks|];
         m.schedule.name == op.name && !m.manual && m.cron == op.cron.value && m.createdAt == e.now
  {
    hide MarkRun;
  }

  /** Every other event adds no scheduled run. */
  lemma OthersAdd(env: Env, s: Sys, e: Event)
    requires TasksInv(env, s) && Next(env, s, e).Some? && !BeginsRun(env, s, e)
    ensures var s' := Next(env, s, e).value;
      && |s.marks| <= |s'.marks| <= |s.marks| + 1 && s'.marks[..|s.marks|] == s.marks
      && (|s'.marks| > |s.marks| ==> s'.marks[|s.marks|].manual)
  {
    if e.Stamp? {
      assert TaskInv(env, s, e.id, s.tasks[e.id]);
    }
    hide IsDue, Begin, Plan, RunOf, Merge, TasksInv, StageInv, KeyOf, Requested;
  }

  // ── The exact condition ──────────────────────────────────────────────────

  lemma SeparatedExtends(env: Env, marks: seq<Mark>, longer: seq<Mark>, scheduled: bool)
    requires Separated(env, marks, scheduled) && |marks| <= |longer| <= |marks| + 1 && longer[..|marks|] == marks
    requires |longer| > |marks| && !longer[|marks|].manual ==>
      forall i :: 0 <= i < |marks| && Counts(longer[i], longer[|marks|].schedule.name, scheduled) ==>
        Separates(env, longer, i, |marks|)
    ensures Separated(env, longer, scheduled)
  {
    hide TickBetween, Counts;
    forall i, j | 0 <= i < j < |longer| && !longer[j].manual && Counts(longer[i], longer[j].schedule.name, scheduled)
      ensures Separates(env, longer, i, j)
    {
      if j < |marks| {
        assert longer[i] == marks[i] && longer[j] == marks[j];
        assert Separates(env, marks, i, j);
      }
    }
  }

  lemma SeparatedPrefix(env: Env, marks: seq<Mark>, longer: seq<Mark>, scheduled: bool)
    requires |marks| <= |longer| && longer[..|marks|] == marks && Separated(env, longer, scheduled)
    ensures Separated(env, marks, scheduled)
  {
    hide TickBetween, Counts;
    forall i, j | 0 <= i < j < |marks| && !marks[j].manual && Counts(marks[i], marks[j].schedule.name, scheduled)
      ensures Separates(env, marks, i, j)
    {
      assert longer[i] == marks[i] && longer[j] == marks[j];
      assert Separates(env, longer, i, j);
    }
  }

  /** The worker runs schedules by expressions that parse. */
  lemma BeginsByLoaded(env: Env, s: Sys, e: Event)
    requires Inv(env, s) && BeginsRun(env, s, e)
    ensures 0 < s.worker.next <= |s.worker.loaded|
    ensures var l, op := s.worker.loaded[s.worker.next - 1], s.tasks[WORKER].op;
      && op == BeginRun(l.name, Some(l.cron)) && env.parses(l.cron)
      && TickBetween(env, l.cron, Baseline(l), e.now)
  {
    hide TasksInv, MarksInv, LogInv, TurnsTaken, Baseline, TickBetween, Plan, Begin, NormalizeCron;
    var l := s.worker.loaded[s.worker.next - 1];
    assert Runnable(env, l);
    TickStays(env, l.cron, Baseline(l), s.clock, e.now);
  }

  lemma StepSeparatesExactly(env: Env, s: Sys, e: Event, scheduled: bool)
    requires IsCron(env) && Inv(env, s) && Next(env, s, e).Some? && Separated(env, s.marks, scheduled)
    ensures Separated(env, Next(env, s, e).value.marks, scheduled) <==> !RunsEarly(env, s, e, scheduled)
  {
    var marks := Next(env, s, e).value.marks;
    if BeginsRun(env, s, e) {
      BeginAdds(env, s, e);
      BeginsByLoaded(env, s, e);
      LastRunIsLast(s.marks, s.tasks[WORKER].op.name, scheduled);
      hide Inv, BeginsRun, Next, Counts, Separated, IsCron;
      NewRunSeparatesExactly(env, s.marks, marks, scheduled);
    } else {
      OthersAdd(env, s, e);
      hide Inv, BeginsRun, Next, IsCron;
      SeparatedExtends(env, s.marks, marks, scheduled);
    }
  }

  lemma NewRunSeparatesExactly(env: Env, marks: seq<Mark>, longer: seq<Mark>, scheduled: bool)
    requires IsCron(env) && Separated(env, marks, scheduled)
    requires forall i, j :: 0 <= i <= j < |marks| ==> marks[i].createdAt <= marks[j].createdAt
    requires |longer| == |marks| + 1 && longer[..|marks|] == marks && !longer[|marks|].manual
    requires env.parses(longer[|marks|].cron)
    ensures var m := longer[|marks|];
      var last := LastRun(marks, m.schedule.name, scheduled);
      Separated(env, longer, scheduled) <==> last == None || DueSince(env, m.cron, last.value, m.createdAt)
  {
    var m := longer[|marks|];
    var last := LastRun(marks, m.schedule.name, scheduled);
    LastRunIsLast(marks, m.schedule.name, scheduled);
    if last == None {
      hide Counts, TickBetween, IsCron;
      SeparatedExtends(env, marks, longer, scheduled);
    } else {
      DueSinceExactly(env, m.cron, last.value, m.createdAt);
      hide IsCron, DueSince, Counts;
      if DueSince(env, m.cron, last.value, m.createdAt) {
        SeparatedExtends(env, marks, longer, scheduled);
      } else {
        var i :| 0 <= i < |marks| && Counts(marks[i], m.schedule.name, scheduled) && marks[i].createdAt == last.value;
        assert longer[i] == marks[i] && !Separates(env, longer, i, |marks|);
      }
    }
  }

  lemma {:induction false} NoEarlyRunSeparates(
      env: Env, events: seq<Event>, states: seq<Sys>, scheduled: bool, n: nat)
    requires IsCron(env) && IsHistory(env, events, states) && n <= |events|
    requires forall i :: 0 <= i < n ==> !RunsEarly(env, states[i], events[i], scheduled)
    ensures Separated(env, states[n].marks, scheduled)
  {
    hide Next, RunsEarly, Inv, IsCron;
    if n == 0 {
    } else {
      NoEarlyRunSeparates(env, events, states, scheduled, n - 1);
      HistoryKeepsInv(env, events, states, n - 1);
      assert Next(env, states[n - 1], events[n - 1]) == Some(states[n - 1 + 1]);
      hide Separated;
      StepSeparatesExactly(env, states[n - 1], events[n - 1], scheduled);
    }
  }

  lemma {:induction false} MarksGrow(env: Env, events: seq<Event>, states: seq<Sys>, m: nat, n: nat)
    requires IsHistory(env, events, states) && m <= n <= |events|
    ensures |states[m].marks| <= |states[n].marks| && states[n].marks[..|states[m].marks|] == states[m].marks
  {
    hide Next, Initial;
    if m == n {
    } else {
      MarksGrow(env, events, states, m, n - 1);
      assert Next(env, states[n - 1], events[n - 1]) == Some(states[n - 1 + 1]);
      NextExtends(env, states[n - 1], events[n - 1]);
    }
  }

  lemma EarlyRunBreaks(env: Env, events: seq<Event>, states: seq<Sys>, scheduled: bool, n: nat)
    requires IsCron(env) && IsHistory(env, events, states) && n < |events|
    requires RunsEarly(env, states[n], events[n], scheduled)
    ensures !Separated(env, states[|events|].marks, scheduled)
  {
    HistoryKeepsInv(env, events, states, n);
    assert Next(env, states[n], events[n]) == Some(states[n + 1]);
    hide Next, RunsEarly, Inv, IsCron, Separated, Initial;
    MarksGrow(env, events, states, n, |events|);
    MarksGrow(env, events, states, n + 1, |events|);
    if Separated(env, states[|events|].marks, scheduled) {
      SeparatedPrefix(env, states[n].marks, states[|events|].marks, scheduled);
      SeparatedPrefix(env, states[n + 1].marks, states[|events|].marks, scheduled);
      StepSeparatesExactly(env, states[n], events[n], scheduled);
    }
  }

  /**
   * The exact condition, over all histories: between any run of a schedule and a later scheduled one
   * there was a tick, if and only if the worker never begins a run that is not due by its own test,
   * counted from the last run of the schedule; and so for scheduled runs among themselves.
   */
  lemma RunsAreSeparatedExactly(env: Env, events: seq<Event>, states: seq<Sys>, scheduled: bool)
    requires IsCron(env) && IsHistory(env, events, states)
    ensures Separated(env, states[|events|].marks, scheduled) <==>
      forall n :: 0 <= n < |events| ==> !RunsEarly(env, states[n], events[n], scheduled)
  {
    hide RunsEarly, Separated, IsCron;
    if n :| 0 <= n < |events| && RunsEarly(env, states[n], events[n], scheduled) {
      EarlyRunBreaks(env, events, states, scheduled, n);
    } else {
      NoEarlyRunSeparates(env, events, states, scheduled, |events|);
    }
  }

  // ── Writes that are based on current schedules ───────────────────────────

  /** A write does not take the schedules from a list that is older than the stored one, or from no answer. */
  predicate KeepsSchedules(s: Sys, e: Event) {
    e.Write? && e.id in s.tasks && s.tasks[e.id].stage.Fetched? ==> s.tasks[e.id].stage.seen == Some(s.edition)
  }

  ghost predicate AllKeepSchedules(events: seq<Event>, states: seq<Sys>, n: nat)
    requires n <= |events| && |states| == |events| + 1
  {
    forall i :: 0 <= i < n ==> KeepsSchedules(states[i], events[i])
  }

  /** No run that is `known` is younger than the baseline of its schedule. */
  ghost predicate Covers(schedules: seq<Schedule>, marks: seq<Mark>, known: set<nat>) {
    forall i, j :: 0 <= i < |schedules| && j in known && j < |marks| && marks[j].schedule.name == schedules[i].name ==>
      marks[j].createdAt <= Baseline(schedules[i])
  }

  ghost predicate CurrentTask(s: Sys, stage: Stage) {
    match stage
    case New => true
    case Loaded(base, seen) => seen == Some(s.edition) ==> base.schedules == s.store.schedules
    case Ready(change, seen) =>
      seen == Some(s.edition) && change.Schedules? ==> Covers(change.schedules, s.marks, s.stored)
    case Fetched(change, data, seen) =>
      seen == Some(s.edition) ==>
        if change.Schedules? then Covers(change.schedules, s.marks, s.stored) else data.schedules == s.store.schedules
  }

  ghost predicate CurrentInv(s: Sys) {
    && Covers(s.store.schedules, s.marks, s.stored)
    && Covers(s.worker.loaded, s.marks, s.worker.known)
    && forall id :: id in s.tasks ==> CurrentTask(s, s.tasks[id].stage)
  }

  lemma ReplaceCovers(schedules: seq<Schedule>, marks: seq<Mark>, known: set<nat>, i: nat, s: Schedule)
    requires Covers(schedules, marks, known) && i < |schedules|
    requires s.name == schedules[i].name && Baseline(schedules[i]) <= Baseline(s)
    ensures Covers(schedules[i := s], marks, known)
  {
    hide Baseline;
    var all := schedules[i := s];
    forall a, j | 0 <= a < |all| && j in known && j < |marks| && marks[j].schedule.name == all[a].name
      ensures marks[j].createdAt <= Baseline(all[a])
    {
      assert marks[j].createdAt <= Baseline(schedules[a]);
    }
  }

  lemma PushCovers(schedules: seq<Schedule>, marks: seq<Mark>, known: set<nat>, s: Schedule)
    requires Covers(schedules, marks, known)
    requires forall j :: 0 <= j < |marks| ==> marks[j].createdAt <= Baseline(s)
    ensures Covers(schedules + [s], marks, known)
  {
    hide Baseline;
    var all := schedules + [s];
    forall a, j | 0 <= a < |all| && j in known && j < |marks| && marks[j].schedule.name == all[a].name
      ensures marks[j].createdAt <= Baseline(all[a])
    {
      assert a < |schedules| ==> marks[j].createdAt <= Baseline(schedules[a]);
    }
  }

  lemma WithoutCovers(schedules: seq<Schedule>, marks: seq<Mark>, known: set<nat>, name: string)
    requires Covers(schedules, marks, known)
    ensures Covers(Without(schedules, name), marks, known)
  {
    hide Baseline;
    var left := Without(schedules, name);
    forall a, j | 0 <= a < |left| && j in known && j < |marks| && marks[j].schedule.name == left[a].name
      ensures marks[j].createdAt <= Baseline(left[a])
    {
      assert left[a] in schedules;
      var i :| 0 <= i < |schedules| && schedules[i] == left[a];
      assert marks[j].createdAt <= Baseline(schedules[i]);
    }
  }

  lemma SavedCovers(env: Env, base: Store, marks: seq<Mark>, known: set<nat>, req: Request, now: Time)
    requires ListInv(env, base.schedules, now) && Covers(base.schedules, marks, known)
    requires forall j :: 0 <= j < |marks| ==> marks[j].createdAt <= now
    requires Upsert(env, base, req, now).reply == Saved
    ensures Covers(Upsert(env, base, req, now).store.schedules, marks, known)
  {
    hide NormalizeCron, Trim, Covers;
    var cron, i := NormalizeCron(Trim(req.cron)), IndexOf(base.schedules, Trim(req.name));
    if i < |base.schedules| {
      assert Baseline(base.schedules[i]) <= now;
      ReplaceCovers(base.schedules, marks, known, i, Edited(base.schedules[i], req, cron.value, now));
    } else {
      var added := Schedule(Trim(req.name), cron.value, req.timezone, req.paused, req.includeNamespaces,
                            req.excludeNamespaces, now, None);
      PushCovers(base.schedules, marks, known, added);
    }
  }

  /** A list computed from one that has all marks has them too. */
  lemma PlanCovers(env: Env, op: Op, base: Store, now: Time, marks: seq<Mark>, known: set<nat>)
    requires ListInv(env, base.schedules, now) && Covers(base.schedules, marks, known)
    requires forall j :: 0 <= j < |marks| ==> marks[j].createdAt <= now
    requires Plan(env, op, base, now).Some? && Plan(env, op, base, now).value.Schedules?
    ensures Covers(Plan(env, op, base, now).value.schedules, marks, known)
  {
    match op
    case BeginRun(_, _) =>
      var i := IndexOf(base.schedules, KeyOf(op));
      assert Baseline(base.schedules[i]) <= now == Baseline(MarkRun(base.schedules[i], now));
      hide Covers, ListInv, KeyOf;
      ReplaceCovers(base.schedules, marks, known, i, MarkRun(base.schedules[i], now));
    case SaveSchedule(req) =>
      hide ListInv, Upsert, Covers;
      SavedCovers(env, base, marks, known, req, now);
    case RemoveSchedule(name) =>
      hide ListInv, Covers;
      WithoutCovers(base.schedules, marks, known, Trim(name));
  }

  lemma MoreMarksCovers(schedules: seq<Schedule>, marks: seq<Mark>, longer: seq<Mark>, known: set<nat>)
    requires Covers(schedules, marks, known) && |marks| <= |longer| && longer[..|marks|] == marks
    requires forall k :: k in known ==> k < |marks|
    ensures Covers(schedules, longer, known)
  {
    hide Baseline;
    assert forall j :: 0 <= j < |marks| ==> longer[j] == marks[j];
  }

  /** The schedules have a new edition, or are as they were. */
  predicate SameOrNewer(s: Sys, s': Sys) {
    || s'.edition > s.edition
    || (s'.edition == s.edition && s'.store.schedules == s.store.schedules && s'.stored == s.stored)
  }

  /** Tasks that an event leaves alone stay current, unless the schedules were rewritten. */
  lemma OthersStayCurrent(s: Sys, s': Sys, stage: Stage)
    requires CurrentTask(s, stage) && SeenOf(stage) <= s.edition
    requires |s.marks| <= |s'.marks| && s'.marks[..|s.marks|] == s.marks && forall k :: k in s.stored ==> k < |s.marks|
    requires SameOrNewer(s, s')
    ensures CurrentTask(s', stage)
  {
    hide Covers;
    if s'.edition == s.edition && !stage.New? && !stage.Loaded? && stage.change.Schedules? {
      if stage.seen == Some(s.edition) {
        MoreMarksCovers(stage.change.schedules, s.marks, s'.marks, s.stored);
      }
    }
  }

  function SeenOf(stage: Stage): nat {
    if !stage.New? && stage.seen.Some? then stage.seen.value else 0
  }

  lemma SeenIsPast(env: Env, s: Sys, id: TaskId)
    requires TasksInv(env, s) && id in s.tasks
    ensures SeenOf(s.tasks[id].stage) <= s.edition
  {
    assert TaskInv(env, s, id, s.tasks[id]);
    hide TasksInv, OpInv, ChangeInv, ListInv;
  }

  /** Writing a list that covers all stored marks and has the task's own. */
  lemma OwnMarkCovers(schedules: seq<Schedule>, marks: seq<Mark>, known: set<nat>, k: nat)
    requires Covers(schedules, marks, known) && UniqueNames(schedules) && k < |marks| && OwnMark(schedules, marks[k])
    ensures Covers(schedules, marks, known + {k})
  {
    hide Baseline;
    var i :| 0 <= i < |schedules| && schedules[i].name == marks[k].schedule.name
      && Baseline(schedules[i]) == marks[k].createdAt;
    forall a, j | 0 <= a < |schedules| && j in known + {k} && j < |marks| && marks[j].schedule.name == schedules[a].name
      ensures marks[j].createdAt <= Baseline(schedules[a])
    {
      if j == k {
        assert a == i;
      }
    }
  }

  // Each event

  lemma StampStaysCurrent(env: Env, s: Sys, id: TaskId, now: Time)
    requires Inv(env, s) && CurrentInv(s) && Next(env, s, Stamp(id, now)).Some?
    ensures var s' := Next(env, s, Stamp(id, now)).value; id in s'.tasks ==> CurrentTask(s', s'.tasks[id].stage)
  {
    var t, s' := s.tasks[id], Next(env, s, Stamp(id, now)).value;
    assert TaskInv(env, s, id, t) && CurrentTask(s, t.stage);
    var plan := Plan(env, t.op, t.stage.base, now);
    if plan.Some? && plan.value.Schedules? && t.stage.seen == Some(s.edition) {
      ListAges(env, t.stage.base.schedules, s.clock, now);
      hide ListInv, Covers, TasksInv, LogInv, WorkerInv, Begin, KeyOf;
      PlanCovers(env, t.op, t.stage.base, now, s.marks, s.stored);
      NextExtends(env, s, Stamp(id, now));
      MoreMarksCovers(plan.value.schedules, s.marks, s'.marks, s.stored);
    }
    hide Inv, Covers, Plan, Begin, KeyOf, Extends;
  }

  lemma WriteStaysCurrent(env: Env, s: Sys, id: TaskId)
    requires Inv(env, s) && CurrentInv(s) && Next(env, s, Write(id)).Some? && KeepsSchedules(s, Write(id))
    ensures var s' := Next(env, s, Write(id)).value;
      && Covers(s'.store.schedules, s'.marks, s'.stored)
      && (id in s'.tasks ==> CurrentTask(s', s'.tasks[id].stage))
      && SameOrNewer(s, s')
  {
    var t := s.tasks[id];
    assert TaskInv(env, s, id, t) && CurrentTask(s, t.stage);
    if t.op.Upload? {
      OwnMarkCovers(t.stage.change.schedules, s.marks, s.stored, t.op.mark);
    }
    hide TasksInv, MarksInv, WorkerInv, LogInv, Covers, OwnMark, Runnable, IsRunOf, Requested;
  }

  lemma TouchedStaysCurrent(env: Env, s: Sys, e: Event)
    requires Inv(env, s) && CurrentInv(s) && Next(env, s, e).Some? && KeepsSchedules(s, e)
    ensures var s', id := Next(env, s, e).value, TouchedBy(e);
      && Covers(s'.store.schedules, s'.marks, s'.stored)
      && (id in s'.tasks ==> CurrentTask(s', s'.tasks[id].stage))
      && SameOrNewer(s, s')
  {
    if e.Stamp? {
      StampStaysCurrent(env, s, e.id, e.now);
      NextExtends(env, s, e);
      StoredAreMarks(env, s);
      MoreMarksCovers(s.store.schedules, s.marks, Next(env, s, e).value.marks, s.stored);
      hide Inv, Covers, Plan, Begin, KeyOf, CurrentTask;
    } else if e.Write? {
      WriteStaysCurrent(env, s, e.id);
      hide *;
    } else {
      hide Inv, Covers, IsDue, RunOf;
    }
  }

  lemma StoredAreMarks(env: Env, s: Sys)
    requires Inv(env, s)
    ensures forall k :: k in s.stored ==> k < |s.marks|
    ensures s.worker.known <= s.stored
  {
    hide TasksInv, LogInv, ListInv, TurnsTaken;
  }

  lemma LoadedStays(env: Env, s: Sys, e: Event)
    requires Next(env, s, e).Some? && !e.Load?
    ensures var s' := Next(env, s, e).value;
      s'.worker.loaded == s.worker.loaded && s'.worker.known == s.worker.known
  {
    hide IsDue, Plan, Begin, KeyOf, RunOf, Merge;
  }

  lemma LoadedStaysCurrent(env: Env, s: Sys, e: Event)
    requires Inv(env, s) && CurrentInv(s) && Next(env, s, e).Some?
    ensures var s' := Next(env, s, e).value; Covers(s'.worker.loaded, s'.marks, s'.worker.known)
  {
    var s' := Next(env, s, e).value;
    if e.Load? {
      hide Inv, CurrentTask;
    } else {
      StoredAreMarks(env, s);
      NextExtends(env, s, e);
      LoadedStays(env, s, e);
      hide Inv, Covers, CurrentTask, Next;
      MoreMarksCovers(s.worker.loaded, s.marks, s'.marks, s.worker.known);
    }
  }

  lemma NextStaysCurrent(env: Env, s: Sys, e: Event)
    requires Inv(env, s) && CurrentInv(s) && Next(env, s, e).Some? && KeepsSchedules(s, e)
    ensures CurrentInv(Next(env, s, e).value)
  {
    var s' := Next(env, s, e).value;
    TouchedStaysCurrent(env, s, e);
    LoadedStaysCurrent(env, s, e);
    NextTouchesOne(env, s, e);
    NextExtends(env, s, e);
    StoredAreMarks(env, s);
    assert TasksInv(env, s);
    hide Inv, Next, Covers, CurrentTask, TasksInv;
    forall id | id in s'.tasks ensures CurrentTask(s', s'.tasks[id].stage) {
      if id != TouchedBy(e) {
        SeenIsPast(env, s, id);
        OthersStayCurrent(s, s', s.tasks[id].stage);
      }
    }
  }

  lemma {:induction false} HistoryStaysCurrent(env: Env, events: seq<Event>, states: seq<Sys>, n: nat)
    requires IsCron(env) && IsHistory(env, events, states) && n <= |events| && AllKeepSchedules(events, states, n)
    ensures CurrentInv(states[n])
  {
    if n == 0 {
    } else {
      hide Next, Initial, Inv, CurrentInv, KeepsSchedules;
      HistoryStaysCurrent(env, events, states, n - 1);
      HistoryKeepsInv(env, events, states, n - 1);
      assert Next(env, states[n - 1], events[n - 1]) == Some(states[n - 1 + 1]);
      NextStaysCurrent(env, states[n - 1], events[n - 1]);
    }
  }

  /** In one poll a schedule has one turn. */
  lemma OneTurn(env: Env, s: Sys, j: nat)
    requires Inv(env, s) && Beginning(s) && j < |s.marks| && !s.marks[j].manual
    requires s.marks[j].schedule.name == s.tasks[WORKER].op.name
    ensures j in s.worker.known && j < s.worker.since
  {
    LoadedAreUnique(env, s);
    hide ListInv, TasksInv, MarksInv, LogInv, TickBetween, Baseline;
    assert !HadItsTurn(s, s.tasks[WORKER].op.name);
  }

  /** An early run counts from a run that its poll did not know: by hand, and not stored when the list was loaded. */
  lemma EarlyRunWasUnknown(env: Env, s: Sys, e: Event, j: nat)
    requires IsCron(env) && Inv(env, s) && CurrentInv(s) && BeginsRun(env, s, e)
    requires j < |s.marks| && s.marks[j].schedule.name == s.tasks[WORKER].op.name
    requires !DueSince(env, s.tasks[WORKER].op.cron.value, s.marks[j].createdAt, e.now)
    ensures s.marks[j].manual && j !in s.worker.known
  {
    BeginsByLoaded(env, s, e);
    var l := s.worker.loaded[s.worker.next - 1];
    DueSinceExactly(env, l.cron, s.marks[j].createdAt, e.now);
    NoTickAfter(env, l.cron, s.marks[j].createdAt, Baseline(l), e.now);
    if !s.marks[j].manual {
      OneTurn(env, s, j);
    }
    hide Inv, Baseline, BeginsRun;
  }

  lemma LoadedAreUnique(env: Env, s: Sys)
    requires Inv(env, s)
    ensures UniqueNames(s.worker.loaded)
  {
    hide TasksInv, MarksInv, LogInv, TurnsTaken, UniqueNames;
  }

  lemma NoTickAfter(env: Env, cron: string, last: Time, baseline: Time, upTo: Time)
    requires TickBetween(env, cron, baseline, upTo) && !TickBetween(env, cron, last, upTo)
    ensures baseline < last
  {
    var k :| baseline < k <= upTo && env.tick(cron, k);
  }

  lemma CurrentRunIsNotEarly(env: Env, s: Sys, e: Event)
    requires IsCron(env) && Inv(env, s) && CurrentInv(s)
    ensures !RunsEarly(env, s, e, true)
  {
    if RunsEarly(env, s, e, true) {
      LastRunIsLast(s.marks, s.tasks[WORKER].op.name, true) by {
        hide TasksInv, WorkerInv, LogInv, CurrentInv;
      }
      hide Inv, CurrentInv, IsCron, BeginsRun;
      var j :| 0 <= j < |s.marks| && Counts(s.marks[j], s.tasks[WORKER].op.name, true)
        && s.marks[j].createdAt == LastRun(s.marks, s.tasks[WORKER].op.name, true).value;
      EarlyRunWasUnknown(env, s, e, j);
    }
  }

  /**
   * In a history whose writes never take the schedules from an older list, two scheduled runs of a
   * schedule have a tick of its cron between them, whatever else falls in between.
   */
  lemma ScheduledRunsAreSeparated(env: Env, events: seq<Event>, states: seq<Sys>, i: nat, j: nat)
    requires IsCron(env) && IsHistory(env, events, states) && AllKeepSchedules(events, states, |events|)
    requires var marks := states[|events|].marks;
      i < j < |marks| && marks[i].schedule.name == marks[j].schedule.name && !marks[i].manual && !marks[j].manual
    ensures var marks := states[|events|].marks;
      exists k :: marks[i].createdAt < k <= marks[j].createdAt && env.tick(marks[j].cron, k)
  {
    forall n | 0 <= n < |events| ensures !RunsEarly(env, states[n], events[n], true) {
      HistoryKeepsInv(env, events, states, n);
      HistoryStaysCurrent(env, events, states, n);
      hide IsHistory, RunsEarly, Inv, CurrentInv, IsCron, KeepsSchedules;
      CurrentRunIsNotEarly(env, states[n], events[n]);
    }
    hide IsHistory, RunsEarly, IsCron, AllKeepSchedules;
    RunsAreSeparatedExactly(env, events, states, true);
    assert Separates(env, states[|events|].marks, i, j);
  }

  /**
   * In such a history only runs by hand are overtaken, and only those that were not stored when the
   * poll loaded its list: a scheduled run that is early counts from no other.
   */
  lemma OnlyManualRunsOvertake(env: Env, events: seq<Event>, states: seq<Sys>, n: nat, j: nat)
    requires IsCron(env) && IsHistory(env, events, states) && n < |events| && AllKeepSchedules(events, states, n)
    requires var s, e := states[n], events[n];
      && BeginsRun(env, s, e) && j < |s.marks| && s.marks[j].schedule.name == s.tasks[WORKER].op.name
      && !DueSince(env, s.tasks[WORKER].op.cron.value, s.marks[j].createdAt, e.now)
    ensures states[n].marks[j].manual && j !in states[n].worker.known
  {
    HistoryKeepsInv(env, events, states, n);
    HistoryStaysCurrent(env, events, states, n);
    hide IsHistory, Inv, CurrentInv, IsCron, BeginsRun, DueSince, AllKeepSchedules;
    EarlyRunWasUnknown(env, states[n], events[n], j);
  }

  /**
   * In all histories: when a scheduled run is early, the list that its poll loaded had lost the mark
   * of an earlier scheduled run, which had been stored before.
   */
  lemma EarlyRunLostAMark(env: Env, events: seq<Event>, states: seq<Sys>, n: nat)
    requires IsCron(env) && IsHistory(env, events, states) && n < |events|
    requires RunsEarly(env, states[n], events[n], true)
    ensures var s := states[n];
      && 0 < s.worker.next <= |s.worker.loaded| && var l := s.worker.loaded[s.worker.next - 1];
      exists j :: j in s.worker.known && j < |s.marks| && Counts(s.marks[j], l.name, true)
        && Baseline(l) < s.marks[j].createdAt
  {
    var s, e := states[n], events[n];
    HistoryKeepsInv(env, events, states, n);
    hide IsHistory, IsCron;
    LastRunIsLast(s.marks, s.tasks[WORKER].op.name, true) by {
      hide TasksInv, WorkerInv, LogInv;
    }
    BeginsByLoaded(env, s, e) by {
      hide Inv, BeginsRun;
    }
    var l := s.worker.loaded[s.worker.next - 1];
    var last := LastRun(s.marks, l.name, true);
    assert Runnable(env, l) by {
      hide TasksInv, MarksInv, LogInv, TurnsTaken, Runnable;
    }
    DueSinceExactly(env, l.cron, last.value, e.now);
    hide BeginsRun, DueSince, Runnable, Baseline;
    var j :| 0 <= j < |s.marks| && Counts(s.marks[j], l.name, true) && s.marks[j].createdAt == last.value;
    NoTickAfter(env, l.cron, last.value, Baseline(l), e.now);
    OneTurn(env, s, j);
  }

  // ── The first turn past a tick ───────────────────────────────────────────

  /** A turn starts a run exactly if the cron ticked after the loaded baseline and not after the check. */
  lemma TurnStartsExactly(env: Env, events: seq<Event>, states: seq<Sys>, n: nat)
    requires IsCron(env) && IsHistory(env, events, states) && n < |events| && events[n].TakeTurn?
    ensures var s, s' := states[n], states[n + 1];
      && s.worker.next < |s.worker.loaded| && var l := s.worker.loaded[s.worker.next];
      && (WORKER in s'.tasks <==> !l.paused && TickBetween(env, l.cron, Baseline(l), events[n].check))
      && (WORKER in s'.tasks ==> s'.tasks[WORKER] == Task(BeginRun(l.name, Some(l.cron)), New))
  {
    var s, check := states[n], events[n].check;
    HistoryKeepsInv(env, events, states, n);
    assert Next(env, s, events[n]) == Some(states[n + 1]);
    assert Runnable(env, s.worker.loaded[s.worker.next]) by {
      hide TasksInv, MarksInv, LogInv, TurnsTaken, Runnable, Baseline, IsDue;
    }
    DueExactly(env, s.worker.loaded[s.worker.next], check);
    hide Inv, IsDue, Runnable, IsCron, IsHistory, Baseline;
  }

  /**
   * When the run of a turn begins, its cron has ticked since the loaded baseline and the schedule was
   * not run in this poll before. Exactly one run is begun, unless the schedule is gone or paused.
   */
  lemma FirstPollPastTick(env: Env, events: seq<Event>, states: seq<Sys>, n: nat, now: Time)
    requires IsCron(env) && IsHistory(env, events, states) && n < |events|
    requires events[n] == Stamp(WORKER, now) && Beginning(states[n])
    ensures var s, s' := states[n], states[n + 1];
      && 0 < s.worker.next <= |s.worker.loaded| && s.tasks[WORKER].stage.Loaded?
      && var l, current := s.worker.loaded[s.worker.next - 1], s.tasks[WORKER].stage.base.schedules;
         var i := IndexOf(current, l.name);
      && (exists k :: Baseline(l) < k <= now && env.tick(l.cron, k))
      && (forall j :: s.worker.since <= j < |s.marks| ==> !Counts(s.marks[j], l.name, true))
      && if i < |current| && !current[i].paused then s'.marks == s.marks + [Mark(current[i], false, l.cron, now)]
         else s'.marks == s.marks && WORKER !in s'.tasks
  {
    var s := states[n];
    HistoryKeepsInv(env, events, states, n);
    assert Next(env, s, events[n]) == Some(states[n + 1]);
    hide IsHistory, IsCron;
    var l := BeginningTick(env, s);
    TickStays(env, l.cron, Baseline(l), s.clock, now);
    forall j | 0 <= j < |s.marks| && Counts(s.marks[j], l.name, true) ensures j < s.worker.since {
      OneTurn(env, s, j);
    }
    hide Inv, Baseline, MarkRun, Counts;
  }

  lemma BeginningTick(env: Env, s: Sys) returns (l: Schedule)
    requires Inv(env, s) && Beginning(s)
    ensures 0 < s.worker.next <= |s.worker.loaded| && l == s.worker.loaded[s.worker.next - 1]
    ensures s.tasks[WORKER].op == BeginRun(l.name, Some(l.cron)) && TickBetween(env, l.cron, Baseline(l), s.clock)
  {
    hide ListInv, TasksInv, MarksInv, LogInv, TurnsTaken, Baseline, TickBetween;
    l := s.worker.loaded[s.worker.next - 1];
  }

  /** A mark counts as stored once a write has put it into the config map. */
  lemma {:induction false} StoredWasWritten(env: Env, events: seq<Event>, states: seq<Sys>, n: nat, k: nat)
      returns (m: nat)
    requires IsCron(env) && IsHistory(env, events, states) && n <= |events| && k in states[n].stored
    ensures m < n && events[m].Write? && k < |states[m].marks|
    ensures OwnMark(states[m + 1].store.schedules, states[m].marks[k])
  {
    hide Next, Inv, OwnMark;
    if n == 0 {
      assert false;
    } else {
      var s, e := states[n - 1], events[n - 1];
      assert Next(env, s, e) == Some(states[n - 1 + 1]);
      if k in s.stored {
        m := StoredWasWritten(env, events, states, n - 1, k);
      } else {
        m := n - 1;
        HistoryKeepsInv(env, events, states, n - 1);
        NewlyStored(env, s, e, k);
      }
    }
  }

  lemma NewlyStored(env: Env, s: Sys, e: Event, k: nat)
    requires Inv(env, s) && Next(env, s, e).Some? && k !in s.stored && k in Next(env, s, e).value.stored
    ensures e.Write? && k < |s.marks| && OwnMark(Next(env, s, e).value.store.schedules, s.marks[k])
  {
    hide ListInv, MarksInv, WorkerInv, LogInv, OwnMark, IsDue, Begin, Plan, KeyOf, RunOf, IsRunOf, Requested;
    if e.Write? {
      assert TaskInv(env, s, e.id, s.tasks[e.id]);
    }
  }

  /**
   * Whether an upload succeeds or not, a write before its end had put the time of the run into the
   * schedule, so that no tick up to the run is served twice by a list that has this write.
   */
  lemma MarkedBeforeUpload(env: Env, events: seq<Event>, states: seq<Sys>, n: nat, id: TaskId, upload: Option<Uploaded>)
      returns (k: nat, m: nat, i: nat)
    requires IsCron(env) && IsHistory(env, events, states) && n < |events| && events[n] == EndUpload(id, upload)
    ensures m < n && events[m].Write? && k < |states[m].marks| && id in states[n].tasks
    ensures states[n].tasks[id].op == Upload(k) && i < |states[m + 1].store.schedules|
    ensures var s, run := states[m + 1].store.schedules[i], states[m].marks[k];
      s.name == run.schedule.name && Baseline(s) == run.createdAt
  {
    var s := states[n];
    HistoryKeepsInv(env, events, states, n);
    assert Next(env, s, events[n]) == Some(states[n + 1]);
    k := s.tasks[id].op.mark;
    assert TaskInv(env, s, id, s.tasks[id]);
    m := StoredWasWritten(env, events, states, n, k);
    hide Next, IsHistory, Inv, Baseline;
    i :| 0 <= i < |states[m + 1].store.schedules|
      && states[m + 1].store.schedules[i].name == states[m].marks[k].schedule.name
      && Baseline(states[m + 1].store.schedules[i]) == states[m].marks[k].createdAt;
  }

  // ── The stored history of runs ───────────────────────────────────────────

  function Logged(runs: seq<Run>, entry: LogEntry): seq<Run> {
    match entry
    case Appended(_, run) => KeepLast(runs + [run])
    case Dropped(names) => KeepOthers(runs, names)
  }

  /** What the log asks for. */
  function RunsAfter(initial: seq<Run>, log: seq<LogEntry>): seq<Run> {
    if log == [] then initial else Logged(RunsAfter(initial, log[..|log| - 1]), log[|log| - 1])
  }

  /** What a task would make of the runs that are stored now. */
  function Updated(op: Op, runs: seq<Run>): seq<Run> {
    match op
    case AppendRun(_, run) => KeepLast(runs + [run])
    case DropRuns(names) => KeepOthers(runs, Requested(names))
    case _ => runs
  }

  /** A write stores what the task makes of the runs that are stored at that moment. */
  predicate KeepsRuns(s: Sys, e: Event) {
    e.Write? && e.id in s.tasks && s.tasks[e.id].stage.Fetched? ==>
      var t := s.tasks[e.id];
      Merge(t.stage.change, t.stage.data).runs == Updated(t.op, s.store.runs)
  }

  ghost predicate HasItsRuns(s0: Sys, s: Sys) {
    s.store.runs == RunsAfter(s0.store.runs, s.log)
  }

  lemma LogPush(initial: seq<Run>, log: seq<LogEntry>, entry: LogEntry)
    ensures RunsAfter(initial, log + [entry]) == Logged(RunsAfter(initial, log), entry)
  {
    hide Logged;
    assert (log + [entry])[..|log|] == log;
  }

  lemma OthersLeaveRuns(env: Env, s: Sys, e: Event)
    requires Next(env, s, e).Some? && !e.Write?
    ensures Next(env, s, e).value.store == s.store && Next(env, s, e).value.log == s.log
  {
    hide IsDue, Begin, Plan, KeyOf, RunOf;
  }

  lemma RunsStep(env: Env, s0: Sys, s: Sys, e: Event)
    requires Next(env, s, e).Some? && HasItsRuns(s0, s)
    ensures HasItsRuns(s0, Next(env, s, e).value) <==> KeepsRuns(s, e)
  {
    if e.Write? {
      var op := s.tasks[e.id].op;
      if op.AppendRun? {
        LogPush(s0.store.runs, s.log, Appended(op.mark, op.run));
      } else if op.DropRuns? {
        LogPush(s0.store.runs, s.log, Dropped(Requested(op.names)));
      }
      hide RunsAfter, KeepLast, KeepOthers, Requested, Merge;
    } else {
      OthersLeaveRuns(env, s, e);
      hide Next, RunsAfter;
    }
  }

  /**
   * The exact condition, over all histories: the stored runs are at all times what the appended and
   * the deleted ones ask for, if and only if every write is computed from the runs stored at that moment.
   */
  lemma RunsAreKeptExactly(env: Env, events: seq<Event>, states: seq<Sys>)
    requires IsHistory(env, events, states)
    ensures (forall n :: 0 <= n <= |events| ==> HasItsRuns(states[0], states[n])) <==>
      forall n :: 0 <= n < |events| ==> KeepsRuns(states[n], events[n])
  {
    hide Next, HasItsRuns, KeepsRuns;
    if forall n :: 0 <= n < |events| ==> KeepsRuns(states[n], events[n]) {
      forall n | 0 <= n <= |events| ensures HasItsRuns(states[0], states[n]) {
        KeptSoFar(env, events, states, n);
      }
    } else {
      var n :| 0 <= n < |events| && !KeepsRuns(states[n], events[n]);
      assert Next(env, states[n], events[n]) == Some(states[n + 1]);
      if HasItsRuns(states[0], states[n]) {
        RunsStep(env, states[0], states[n], events[n]);
      }
    }
  }

  lemma {:induction false} KeptSoFar(env: Env, events: seq<Event>, states: seq<Sys>, n: nat)
    requires IsHistory(env, events, states) && n <= |events|
    requires forall i :: 0 <= i < n ==> KeepsRuns(states[i], events[i])
    ensures HasItsRuns(states[0], states[n])
  {
    if n == 0 {
    } else {
      hide Next, HasItsRuns, KeepsRuns;
      KeptSoFar(env, events, states, n - 1);
      assert Next(env, states[n - 1], events[n - 1]) == Some(states[n - 1 + 1]);
      RunsStep(env, states[0], states[n - 1], events[n - 1]);
    }
  }

  function RunsIn(log: seq<LogEntry>): seq<Run> {
    if log == [] then []
    else
      var last := log[|log| - 1];
      RunsIn(log[..|log| - 1]) + if last.Appended? then [last.run] else []
  }

  lemma {:induction false} AppendedRunsAreLast(initial: seq<Run>, log: seq<LogEntry>)
    requires |initial| <= HISTORY && forall i :: 0 <= i < |log| ==> log[i].Appended?
    ensures RunsAfter(initial, log) == KeepLast(initial + RunsIn(log))
  {
    if log == [] {
      assert initial + [] == initial;
    } else {
      var init, run := log[..|log| - 1], log[|log| - 1].run;
      AppendedRunsAreLast(initial, init);
      KeepLastPush(initial + RunsIn(init), run);
      assert initial + RunsIn(log) == initial + RunsIn(init) + [run];
    }
  }

  /** So if every write keeps the runs and none is deleted by name, the last 500 of all runs are stored. */
  lemma StoredRunsAreTheLast(env: Env, events: seq<Event>, states: seq<Sys>)
    requires IsHistory(env, events, states) && forall n :: 0 <= n < |events| ==> KeepsRuns(states[n], events[n])
    requires |states[0].store.runs| <= 500
    requires var log := states[|events|].log; forall i :: 0 <= i < |log| ==> log[i].Appended?
    ensures var all, stored := states[0].store.runs + RunsIn(states[|events|].log), states[|events|].store.runs;
      |stored| == (if |all| <= 500 then |all| else 500) && stored == all[|all| - |stored|..]
  {
    KeptSoFar(env, events, states, |events|);
    AppendedRunsAreLast(states[0].store.runs, states[|events|].log);
    hide IsHistory, KeepsRuns, RunsAfter, RunsIn;
  }

  /** An appended run is the record of a run that was begun, and no run is appended twice. */
  lemma AppendedRunsWereBegun(env: Env, events: seq<Event>, states: seq<Sys>, n: nat, i: nat, j: nat)
    requires IsCron(env) && IsHistory(env, events, states) && n <= |events|
    requires i < |states[n].log| && j < |states[n].log| && i != j
    requires states[n].log[i].Appended? && states[n].log[j].Appended?
    ensures var s := states[n];
      && s.log[i].mark < |s.marks| && s.log[i].mark in s.stored && s.log[i].mark != s.log[j].mark
      && exists upload ::
           var m := s.marks[s.log[i].mark]; s.log[i].run == RunOf(env, m.schedule, m.manual, m.createdAt, upload)
  {
    HistoryKeepsInv(env, events, states, n);
    hide IsHistory, ListInv, TasksInv, WorkerInv, MarksInv, RunOf;
    assert IsRunOf(env, states[n].log[i].run, states[n].marks[states[n].log[i].mark]);
  }

  // ── What appended runs report ────────────────────────────────────────────

  /** The event ended the upload of run `k`, and the run tells what it was and how the upload went. */
  ghost predicate EndedAs(env: Env, s: Sys, e: Event, k: nat, run: Run) {
    && e.EndUpload? && e.id in s.tasks && s.tasks[e.id].op == Upload(k) && k < |s.marks|
    && var m := s.marks[k]; Reports(env, run, m.schedule, m.manual, m.createdAt, e.upload)
  }

  lemma TaskOfRun(env: Env, s: Sys, e: Event, id: TaskId, k: nat, run: Run)
    requires Next(env, s, e).Some? && id in Next(env, s, e).value.tasks
    requires Next(env, s, e).value.tasks[id].op == AppendRun(k, run)
    ensures (id in s.tasks && s.tasks[id].op == AppendRun(k, run)) || EndedAs(env, s, e, k, run)
  {
    NextTouchesOne(env, s, e);
    if e.EndUpload? && e.id == id {
      var m := s.marks[s.tasks[id].op.mark];
      RunReports(env, m.schedule, m.manual, m.createdAt, e.upload);
    }
    hide IsDue, Plan, Begin, KeyOf, RunOf, Merge, Reports;
  }

  lemma {:induction false} TaskRunReports(
      env: Env, events: seq<Event>, states: seq<Sys>, n: nat, id: TaskId, k: nat, run: Run) returns (m: nat)
    requires IsHistory(env, events, states) && n <= |events| && id in states[n].tasks
    requires states[n].tasks[id].op == AppendRun(k, run)
    ensures m < n && EndedAs(env, states[m], events[m], k, run)
  {
    hide Next, EndedAs;
    if n == 0 {
      assert false;
    } else {
      assert Next(env, states[n - 1], events[n - 1]) == Some(states[n - 1 + 1]);
      TaskOfRun(env, states[n - 1], events[n - 1], id, k, run);
      if EndedAs(env, states[n - 1], events[n - 1], k, run) {
        m := n - 1;
      } else {
        m := TaskRunReports(env, events, states, n - 1, id, k, run);
      }
    }
  }

  lemma LoggedByWrite(env: Env, s: Sys, e: Event, i: nat)
    requires Next(env, s, e).Some? && |s.log| <= i < |Next(env, s, e).value.log|
    requires Next(env, s, e).value.log[i].Appended?
    ensures var entry := Next(env, s, e).value.log[i];
      e.Write? && e.id in s.tasks && s.tasks[e.id].op == AppendRun(entry.mark, entry.run)
  {
    hide IsDue, Plan, Begin, KeyOf, RunOf, Merge, Requested;
  }

  lemma LogOnlyGrows(env: Env, s: Sys, e: Event)
    requires Next(env, s, e).Some?
    ensures s.log <= Next(env, s, e).value.log
  {
    hide IsDue, Plan, Begin, KeyOf, RunOf, Merge, Requested;
  }

  /**
   * Every appended run tells what was begun, and that its upload succeeded exactly if it did: with
   * the key, size and summary of the upload, or with none and the namespaces that were asked for.
   */
  lemma {:induction false} AppendedRunsReport(env: Env, events: seq<Event>, states: seq<Sys>, n: nat, i: nat)
      returns (m: nat)
    requires IsHistory(env, events, states) && n <= |events| && i < |states[n].log| && states[n].log[i].Appended?
    ensures m < n && EndedAs(env, states[m], events[m], states[n].log[i].mark, states[n].log[i].run)
  {
    hide Next, EndedAs;
    if n == 0 {
      assert false;
    } else {
      var s, e := states[n - 1], events[n - 1];
      assert Next(env, s, e) == Some(states[n - 1 + 1]);
      LogOnlyGrows(env, s, e);
      if i < |s.log| {
        m := AppendedRunsReport(env, events, states, n - 1, i);
      } else {
        LoggedByWrite(env, s, e, i);
        m := TaskRunReports(env, events, states, n - 1, e.id, states[n].log[i].mark, states[n].log[i].run);
      }
    }
  }

  /** Task `id` begins a run of schedule `i` of the list it read, and is to store the list with its mark. */
  ghost predicate BegunOf(s: Sys, s': Sys, id: TaskId, list: seq<Schedule>, i: int, cron: Option<string>, now: Time) {
    && 0 <= i < |list| && !list[i].paused && id in s'.tasks
    && s'.marks == s.marks + [Mark(list[i], cron == None, if cron.Some? then cron.value else list[i].cron, now)]
    && s'.tasks[id].op == Upload(|s.marks|) && s'.tasks[id].stage.Ready?
    && s'.tasks[id].stage.change == Schedules(list[i := list[i].(lastRunAt := Some(now), updatedAt := now)])
  }

  ghost predicate Refuses(list: seq<Schedule>, name: string) {
    (forall l :: l in list ==> l.name != name) || (exists l :: l in list && l.name == name && l.paused)
  }

  /** A run begins with the schedule as it was read, unless there is none of that name or it is paused. */
  lemma RunBegins(env: Env, s: Sys, id: TaskId, now: Time)
    requires id in s.tasks && s.tasks[id].op.BeginRun? && s.tasks[id].stage.Loaded?
    requires Next(env, s, Stamp(id, now)).Some?
    ensures var s', op, list := Next(env, s, Stamp(id, now)).value, s.tasks[id].op, s.tasks[id].stage.base.schedules;
      var name := if op.cron.Some? then op.name else Trim(op.name);
      if s'.marks == s.marks then id !in s'.tasks && (name == "" || Refuses(list, name))
      else exists i :: BegunOf(s, s', id, list, i, op.cron, now) && list[i].name == name
  {
    hide Trim;
    var list, name := s.tasks[id].stage.base.schedules, KeyOf(s.tasks[id].op);
    var i := IndexOf(list, name);
    if i < |list| {
      assert list[i] in list;
      var s' := Next(env, s, Stamp(id, now)).value;
      assert s'.marks != s.marks ==> BegunOf(s, s', id, list, i, s.tasks[id].op.cron, now);
    }
  }
}
