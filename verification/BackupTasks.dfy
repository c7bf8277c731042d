/**
 * The backup handlers and the polling worker as interleaved tasks over one config map. A task reads
 * the map, computes locally, fetches the whole map again and writes it back; anything may happen in
 * between, and the last writer wins.
 */
module BackupTasks {
  import opened BackupScheduler
  import opened Strings
  import opened Wrappers

  // ── Tasks ────────────────────────────────────────────────────────────────

  type TaskId = nat

  /** The run that the polling worker waits for; all other tasks are calls of handlers. */
  const WORKER: TaskId := 0

  /** A run that was begun: the schedule as it was, the cron expression it was due by, and the time. */
  datatype Mark = Mark(schedule: Schedule, manual: bool, cron: string, createdAt: Time)

  /** What a task is about to do. A run begins, is uploaded once its mark is stored, and is appended. */
  datatype Op =
    | BeginRun(name: string, cron: Option<string>) // by hand if there is no cron
    | Upload(mark: nat)
    | AppendRun(mark: nat, run: Run)
    | SaveSchedule(req: Request)
    | RemoveSchedule(removed: string)
    | DropRuns(names: set<string>)
    | SaveSettings

  /** What a task puts into the config map; all other entries go back as they were fetched. */
  datatype Change = Schedules(schedules: seq<Schedule>) | Runs(runs: seq<Run>) | SettingsOnly

  /** `seen` is the edition of the schedules that a task would write back, if its request was answered. */
  datatype Stage =
    | New
    | Loaded(base: Store, seen: Option<nat>)
    | Ready(change: Change, seen: Option<nat>)
    | Fetched(change: Change, data: Store, seen: Option<nat>)

  datatype Task = Task(op: Op, stage: Stage)

  /** The poll: the list it loaded, whose turn is next, how many runs had begun by then, and which were stored. */
  datatype Worker = Worker(loaded: seq<Schedule>, next: nat, since: nat, known: set<nat>)

  datatype LogEntry = Appended(mark: nat, run: Run) | Dropped(names: set<string>)

  /**
   * The config map and how often its schedules were written by their own handlers; the worker and
   * the tasks; all runs ever begun and those whose mark was written; and what was done to the runs.
   */
  datatype Sys = Sys(
    store: Store, edition: nat, worker: Worker, tasks: map<TaskId, Task>, marks: seq<Mark>, stored: set<nat>,
    log: seq<LogEntry>, clock: Time)

  /** A read may go unanswered; the code takes that for an empty config map. */
  datatype Event =
    | Load(answered: bool)
    | TakeTurn(check: Time)
    | Call(id: TaskId, op: Op)
    | Read(id: TaskId, answered: bool)
    | Stamp(id: TaskId, now: Time)
    | Fetch(id: TaskId, answered: bool)
    | Write(id: TaskId)
    | EndUpload(id: TaskId, upload: Option<Uploaded>)

  // ── Steps ────────────────────────────────────────────────────────────────

  const NOTHING := Store([], [])

  function Answer(s: Sys, answered: bool): Store {
    if answered then s.store else NOTHING
  }

  function Edition(s: Sys, answered: bool): Option<nat> {
    if answered then Some(s.edition) else None
  }

  function SetTask(s: Sys, id: TaskId, t: Task): Sys {
    s.(tasks := s.tasks[id := t])
  }

  function EndTask(s: Sys, id: TaskId): Sys {
    s.(tasks := s.tasks - {id})
  }

  predicate IsCall(op: Op) {
    (op.BeginRun? && op.cron == None) || op.SaveSchedule? || op.RemoveSchedule? || op.DropRuns? || op.SaveSettings?
  }

  function Requested(names: set<string>): set<string> {
    set name | name in names && Trim(name) != "" :: Trim(name)
  }

  function KeepOthers(runs: seq<Run>, names: set<string>): (r: seq<Run>)
    ensures forall run :: run in r <==> run in runs && Trim(run.name) !in names
  {
    if runs == [] then []
    else
      var last := runs[|runs| - 1];
      KeepOthers(runs[..|runs| - 1], names) + if Trim(last.name) in names then [] else [last]
  }

  lemma {:induction false} KeepOthersKeeps(runs: seq<Run>, names: set<string>) returns (at: seq<nat>)
    ensures Keeps(runs, KeepOthers(runs, names), at, (run: Run) => Trim(run.name) !in names)
  {
    hide Trim;
    if runs == [] {
      at := [];
    } else {
      var init, last := runs[..|runs| - 1], runs[|runs| - 1];
      at := KeepOthersKeeps(init, names);
      hide Keeps;
      at := KeepsOneMore(init, KeepOthers(init, names), at, (run: Run) => Trim(run.name) !in names, last);
      assert init + [last] == runs;
    }
  }

  /** A run is asked for by a name that is not blank and, up to whitespace around both, its own. */
  ghost predicate Names(names: set<string>, run: Run) {
    exists name :: name in names && Trim(name) != "" && Trim(name) == Trim(run.name)
  }

  /** Deleting runs stores exactly those that no name asks for, in their order; blank names ask for nothing. */
  lemma DropsTheNamed(env: Env, names: set<string>, base: Store, now: Time) returns (at: seq<nat>)
    ensures Plan(env, DropRuns(names), base, now).None? <==> forall name :: name in names ==> Trim(name) == ""
    ensures Plan(env, DropRuns(names), base, now).Some? ==>
      && Plan(env, DropRuns(names), base, now).value.Runs?
      && Keeps(base.runs, Plan(env, DropRuns(names), base, now).value.runs, at, (run: Run) => !Names(names, run))
  {
    hide Trim, KeepOthers;
    forall name | name in names && Trim(name) != "" ensures Requested(names) != {} {
      assert Trim(name) in Requested(names);
    }
    at := KeepOthersKeeps(base.runs, Requested(names));
    forall run: Run ensures Trim(run.name) in Requested(names) <==> Names(names, run) {
    }
    hide Requested, Names;
  }

  /** Deleting a schedule stores the others in their order; a blank name is refused. */
  lemma RemovesTheNamed(env: Env, name: string, base: Store, now: Time) returns (at: seq<nat>)
    ensures Plan(env, RemoveSchedule(name), base, now).None? <==> Trim(name) == ""
    ensures Plan(env, RemoveSchedule(name), base, now).Some? ==>
      && Plan(env, RemoveSchedule(name), base, now).value.Schedules?
      && KeepsOthers(base.schedules, Plan(env, RemoveSchedule(name), base, now).value.schedules, at, Trim(name))
  {
    at := WithoutKeeps(base.schedules, Trim(name));
    hide Trim, Without;
  }

  /** The name that a run is looked up by. */
  function KeyOf(op: Op): string
    requires op.BeginRun?
  {
    if op.cron == None then Trim(op.name) else op.name
  }

  /** What a task computes from what it read; `None` if it is refused. */
  function Plan(env: Env, op: Op, base: Store, now: Time): Option<Change> {
    match op
    case BeginRun(_, cron) =>
      var begun := Begin(base.schedules, KeyOf(op), now);
      if (cron == None && KeyOf(op) == "") || begun.Refused? then None else Some(Schedules(begun.schedules))
    case SaveSchedule(req) =>
      var saved := Upsert(env, base, req, now);
      if saved.reply == Saved then Some(Schedules(saved.store.schedules)) else None
    case RemoveSchedule(name) => if Trim(name) == "" then None else Some(Schedules(Delete(base, name).schedules))
    case AppendRun(_, run) => Some(Runs(KeepLast(base.runs + [run])))
    case DropRuns(names) =>
      if Requested(names) == {} then None else Some(Runs(KeepOthers(base.runs, Requested(names))))
    case SaveSettings => Some(SettingsOnly)
    case Upload(_) => None
  }

  /** The config map that is written. */
  function Merge(change: Change, data: Store): Store {
    match change
    case Schedules(schedules) => data.(schedules := schedules)
    case Runs(runs) => data.(runs := runs)
    case SettingsOnly => data
  }

  /** The poll loads the list that all its turns work on. */
  function AfterLoad(s: Sys, answered: bool): Option<Sys> {
    if WORKER in s.tasks || s.worker.next < |s.worker.loaded| then None
    else Some(s.(worker := Worker(Answer(s, answered).schedules, 0, |s.marks|, s.stored)))
  }

  /** A turn starts a run if the schedule is due by the loaded list. */
  function AfterTurn(env: Env, s: Sys, check: Time): Option<Sys> {
    if WORKER in s.tasks || s.worker.next >= |s.worker.loaded| || check < s.clock then None
    else
      var l := s.worker.loaded[s.worker.next];
      var taken := s.(worker := s.worker.(next := s.worker.next + 1), clock := check);
      Some(if IsDue(env, l, check) then SetTask(taken, WORKER, Task(BeginRun(l.name, Some(l.cron)), New)) else taken)
  }

  function AfterRead(s: Sys, id: TaskId, t: Task, answered: bool): Option<Sys> {
    if !t.stage.New? || t.op.Upload? then None
    else Some(SetTask(s, id, t.(stage := Loaded(Answer(s, answered), Edition(s, answered)))))
  }

  /** The local part, with the clock read; a run is begun here. */
  function AfterStamp(env: Env, s: Sys, id: TaskId, t: Task, now: Time): Option<Sys> {
    if !t.stage.Loaded? || now < s.clock then None
    else
      var s', plan := s.(clock := now), Plan(env, t.op, t.stage.base, now);
      if plan == None then Some(EndTask(s', id))
      else
        var stage := Ready(plan.value, t.stage.seen);
        if !t.op.BeginRun? then Some(SetTask(s', id, t.(stage := stage)))
        else
          var snapshot := Begin(t.stage.base.schedules, KeyOf(t.op), now).snapshot;
          var m := Mark(snapshot, t.op.cron == None, if t.op.cron.Some? then t.op.cron.value else snapshot.cron, now);
          Some(SetTask(s'.(marks := s.marks + [m]), id, Task(Upload(|s.marks|), stage)))
  }

  function AfterFetch(s: Sys, id: TaskId, t: Task, answered: bool): Option<Sys> {
    if !t.stage.Ready? then None
    else
      var seen := if t.stage.change.Schedules? then t.stage.seen else Edition(s, answered);
      Some(SetTask(s, id, t.(stage := Fetched(t.stage.change, Answer(s, answered), seen))))
  }

  function AfterWrite(s: Sys, id: TaskId, t: Task): Option<Sys> {
    if !t.stage.Fetched? then None
    else
      var written := s.(store := Merge(t.stage.change, t.stage.data),
                        edition := s.edition + if t.stage.change.Schedules? then 1 else 0);
      match t.op
      case Upload(k) => Some(SetTask(written.(stored := s.stored + {k}), id, Task(t.op, New)))
      case AppendRun(k, run) => Some(EndTask(written.(log := s.log + [Appended(k, run)]), id))
      case DropRuns(names) => Some(EndTask(written.(log := s.log + [Dropped(Requested(names))]), id))
      case _ => Some(EndTask(written, id))
  }

  /** The upload ends, well or badly, and the run is to be appended. */
  function AfterUpload(env: Env, s: Sys, id: TaskId, t: Task, upload: Option<Uploaded>): Option<Sys> {
    if !t.op.Upload? || !t.stage.New? || t.op.mark >= |s.marks| then None
    else
      var m := s.marks[t.op.mark];
      Some(SetTask(s, id, Task(AppendRun(t.op.mark, RunOf(env, m.schedule, m.manual, m.createdAt, upload)), New)))
  }

  /** The state after an event, or `None` when it cannot happen. */
  function Next(env: Env, s: Sys, e: Event): Option<Sys> {
    match e
    case Load(answered) => AfterLoad(s, answered)
    case TakeTurn(check) => AfterTurn(env, s, check)
    case Call(id, op) =>
      if id == WORKER || id in s.tasks || !IsCall(op) then None else Some(SetTask(s, id, Task(op, New)))
    case _ =>
      if e.id !in s.tasks then None
      else
        var t := s.tasks[e.id];
        match e
        case Read(id, answered) => AfterRead(s, id, t, answered)
        case Stamp(id, now) => AfterStamp(env, s, id, t, now)
        case Fetch(id, answered) => AfterFetch(s, id, t, answered)
        case Write(id) => AfterWrite(s, id, t)
        case EndUpload(id, upload) => AfterUpload(env, s, id, t, upload)
  }

  const NO_POLL := Worker([], 0, 0, {})

  /** The state when the backend starts, over whatever its handlers stored before. */
  ghost predicate Initial(env: Env, s: Sys) {
    && ListInv(env, s.store.schedules, s.clock)
    && s.worker == NO_POLL && s.tasks == map[] && s.marks == [] && s.stored == {} && s.log == []
  }

  ghost predicate IsHistory(env: Env, events: seq<Event>, states: seq<Sys>) {
    && |states| == |events| + 1
    && Initial(env, states[0])
    && forall i :: 0 <= i < |events| ==> Next(env, states[i], events[i]) == Some(states[i + 1])
  }

  // ── The invariant ────────────────────────────────────────────────────────

  /** Names are different, crons are accepted by the next poll, and no baseline is in the future. */
  ghost predicate ListInv(env: Env, schedules: seq<Schedule>, clock: Time) {
    && UniqueNames(schedules)
    && forall i :: 0 <= i < |schedules| ==> Runnable(env, schedules[i]) && Baseline(schedules[i]) <= clock
  }

  ghost predicate TickBetween(env: Env, cron: string, after: Time, upTo: Time) {
    exists k :: after < k <= upTo && env.tick(cron, k)
  }

  /** The list has the mark of its own run. */
  ghost predicate OwnMark(schedules: seq<Schedule>, m: Mark) {
    exists i :: 0 <= i < |schedules| && schedules[i].name == m.schedule.name && Baseline(schedules[i]) == m.createdAt
  }

  ghost predicate IsRunOf(env: Env, run: Run, m: Mark) {
    exists upload :: run == RunOf(env, m.schedule, m.manual, m.createdAt, upload)
  }

  ghost predicate OpInv(env: Env, s: Sys, id: TaskId, op: Op) {
    match op
    case BeginRun(_, cron) => id == WORKER <==> cron.Some?
    case Upload(k) => k < |s.marks| && (id == WORKER <==> !s.marks[k].manual)
    case AppendRun(k, run) =>
      k < |s.marks| && k in s.stored && IsRunOf(env, run, s.marks[k]) && (id == WORKER <==> !s.marks[k].manual)
    case _ => id != WORKER
  }

  ghost predicate ChangeInv(env: Env, s: Sys, op: Op, change: Change) {
    && !op.BeginRun?
    && (op.Upload? ==> change.Schedules? && op.mark < |s.marks| && OwnMark(change.schedules, s.marks[op.mark]))
    && (op.AppendRun? || op.DropRuns? <==> change.Runs?)
    && (change.Schedules? ==> ListInv(env, change.schedules, s.clock))
  }

  predicate SeenInv(s: Sys, seen: Option<nat>) {
    seen.Some? ==> seen.value <= s.edition
  }

  ghost predicate StageInv(env: Env, s: Sys, op: Op, stage: Stage) {
    match stage
    case New => op.Upload? ==> op.mark in s.stored
    case Loaded(base, seen) => !op.Upload? && ListInv(env, base.schedules, s.clock) && SeenInv(s, seen)
    case Ready(change, seen) => ChangeInv(env, s, op, change) && SeenInv(s, seen)
    case Fetched(change, data, seen) =>
      ChangeInv(env, s, op, change) && ListInv(env, data.schedules, s.clock) && SeenInv(s, seen)
  }

  ghost predicate TaskInv(env: Env, s: Sys, id: TaskId, t: Task) {
    OpInv(env, s, id, t.op) && StageInv(env, s, t.op, t.stage)
  }

  ghost predicate TasksInv(env: Env, s: Sys) {
    forall id :: id in s.tasks ==> TaskInv(env, s, id, s.tasks[id])
  }

  ghost predicate MarksInv(s: Sys) {
    && (forall i, j :: 0 <= i <= j < |s.marks| ==> s.marks[i].createdAt <= s.marks[j].createdAt)
    && (forall j :: 0 <= j < |s.marks| ==> s.marks[j].createdAt <= s.clock)
    && (forall k :: k in s.stored ==> k < |s.marks|)
    && (forall j :: 0 <= j < |s.marks| && !s.marks[j].manual && j !in s.stored ==>
          WORKER in s.tasks && s.tasks[WORKER].op == Upload(j))
  }

  /** A run that the worker has yet to begin. */
  predicate Beginning(s: Sys) {
    WORKER in s.tasks && s.tasks[WORKER].op.BeginRun?
  }

  /** How many turns of this poll may have begun a run. */
  function Served(s: Sys): int {
    s.worker.next - if Beginning(s) then 1 else 0
  }

  ghost predicate HadItsTurn(s: Sys, name: string) {
    exists i :: 0 <= i < Served(s) && i < |s.worker.loaded| && s.worker.loaded[i].name == name
  }

  /** Scheduled runs begun since the load belong to schedules whose turn is over. */
  ghost predicate TurnsTaken(s: Sys) {
    forall j :: s.worker.since <= j < |s.marks| && !s.marks[j].manual ==> HadItsTurn(s, s.marks[j].schedule.name)
  }

  ghost predicate WorkerInv(env: Env, s: Sys) {
    && s.worker.next <= |s.worker.loaded| && s.worker.since <= |s.marks| && s.worker.known <= s.stored
    && ListInv(env, s.worker.loaded, s.clock)
    && (forall j :: 0 <= j < s.worker.since && !s.marks[j].manual ==> j in s.worker.known)
    && TurnsTaken(s)
    && (Beginning(s) ==>
          && 0 < s.worker.next
          && var l := s.worker.loaded[s.worker.next - 1];
             s.tasks[WORKER].op == BeginRun(l.name, Some(l.cron)) && TickBetween(env, l.cron, Baseline(l), s.clock))
  }

  function MarkOf(op: Op): Option<nat> {
    match op
    case Upload(k) => Some(k)
    case AppendRun(k, _) => Some(k)
    case _ => None
  }

  /** Every run is appended once, when its own task is over. */
  ghost predicate LogInv(env: Env, s: Sys) {
    && (forall i :: 0 <= i < |s.log| && s.log[i].Appended? ==>
          s.log[i].mark < |s.marks| && s.log[i].mark in s.stored && IsRunOf(env, s.log[i].run, s.marks[s.log[i].mark]))
    && (forall i, j :: 0 <= i < j < |s.log| && s.log[i].Appended? && s.log[j].Appended? ==>
          s.log[i].mark != s.log[j].mark)
    && (forall i, id :: 0 <= i < |s.log| && s.log[i].Appended? && id in s.tasks ==>
          MarkOf(s.tasks[id].op) != Some(s.log[i].mark))
    && (forall a, b :: a in s.tasks && b in s.tasks && a != b && MarkOf(s.tasks[a].op).Some? ==>
          MarkOf(s.tasks[a].op) != MarkOf(s.tasks[b].op))
  }

  ghost predicate Inv(env: Env, s: Sys) {
    && ListInv(env, s.store.schedules, s.clock)
    && TasksInv(env, s)
    && MarksInv(s)
    && WorkerInv(env, s)
    && LogInv(env, s)
  }

  // ── Lists ────────────────────────────────────────────────────────────────

  lemma ListAges(env: Env, schedules: seq<Schedule>, clock: Time, later: Time)
    requires ListInv(env, schedules, clock) && clock <= later
    ensures ListInv(env, schedules, later)
  {
    hide Runnable, Baseline;
  }

  lemma ReplaceKeepsList(env: Env, schedules: seq<Schedule>, clock: Time, i: nat, s: Schedule)
    requires ListInv(env, schedules, clock) && i < |schedules|
    requires s.name == schedules[i].name && Runnable(env, s) && Baseline(s) <= clock
    ensures ListInv(env, schedules[i := s], clock)
  {
    hide Runnable, Baseline;
  }

  lemma PushKeepsList(env: Env, schedules: seq<Schedule>, clock: Time, s: Schedule)
    requires ListInv(env, schedules, clock) && Runnable(env, s) && Baseline(s) <= clock
    requires forall i :: 0 <= i < |schedules| ==> schedules[i].name != s.name
    ensures ListInv(env, schedules + [s], clock)
  {
    hide Runnable, Baseline;
  }

  lemma {:induction false} WithoutKeepsList(env: Env, schedules: seq<Schedule>, clock: Time, name: string)
    requires ListInv(env, schedules, clock)
    ensures ListInv(env, Without(schedules, name), clock)
  {
    hide Runnable, Baseline;
    if schedules == [] {
    } else {
      var init, last := schedules[..|schedules| - 1], schedules[|schedules| - 1];
      WithoutKeepsList(env, init, clock, name);
      var left := Without(init, name);
      forall i | 0 <= i < |left| ensures left[i].name != last.name {
        assert left[i] in init;
      }
      if last.name == name {
        assert Without(schedules, name) == left + [] == left;
      } else {
        PushKeepsList(env, left, clock, last);
      }
      hide ListInv;
    }
  }

  lemma MarkRunIsRunnable(env: Env, s: Schedule, now: Time)
    requires Runnable(env, s)
    ensures Runnable(env, MarkRun(s, now)) && Baseline(MarkRun(s, now)) == now && MarkRun(s, now).name == s.name
  {
    hide NormalizeCron, Trim;
  }

  lemma SavedIsRunnable(env: Env, base: Store, req: Request, now: Time)
    requires ListInv(env, base.schedules, now) && Upsert(env, base, req, now).reply == Saved
    ensures ListInv(env, Upsert(env, base, req, now).store.schedules, now)
  {
    var schedules := base.schedules;
    var cron, i := NormalizeCron(Trim(req.cron)), IndexOf(schedules, Trim(req.name));
    NormalizeIsStable(Trim(req.cron));
    hide NormalizeCron, Trim;
    if i < |schedules| {
      var edited := Edited(schedules[i], req, cron.value, now);
      assert Baseline(schedules[i]) <= now;
      hide ListInv;
      ReplaceKeepsList(env, schedules, now, i, edited);
    } else {
      var added := Schedule(Trim(req.name), cron.value, req.timezone, req.paused, req.includeNamespaces,
                            req.excludeNamespaces, now, None);
      hide ListInv;
      PushKeepsList(env, schedules, now, added);
    }
  }

  /** A task that writes schedules computes a list that is as good as the one it read. */
  lemma PlanKeepsList(env: Env, op: Op, base: Store, now: Time)
    requires ListInv(env, base.schedules, now) && Plan(env, op, base, now).Some?
    requires Plan(env, op, base, now).value.Schedules?
    ensures ListInv(env, Plan(env, op, base, now).value.schedules, now)
  {
    match op
    case BeginRun(_, _) =>
      var i := IndexOf(base.schedules, KeyOf(op));
      MarkRunIsRunnable(env, base.schedules[i], now);
      hide KeyOf, Runnable, Baseline, MarkRun;
      ReplaceKeepsList(env, base.schedules, now, i, MarkRun(base.schedules[i], now));
    case SaveSchedule(req) =>
      hide ListInv, Upsert;
      SavedIsRunnable(env, base, req, now);
    case RemoveSchedule(name) =>
      hide ListInv;
      WithoutKeepsList(env, base.schedules, now, Trim(name));
  }

  /** What a run that begins stores is its own mark. */
  lemma PlanHasOwnMark(env: Env, op: Op, base: Store, now: Time, m: Mark)
    requires op.BeginRun? && Plan(env, op, base, now).Some?
    requires m.schedule == Begin(base.schedules, KeyOf(op), now).snapshot && m.createdAt == now
    ensures m.schedule.name == KeyOf(op) && OwnMark(Plan(env, op, base, now).value.schedules, m)
  {
    hide KeyOf;
    var i := IndexOf(base.schedules, KeyOf(op));
    var schedules := Plan(env, op, base, now).value.schedules;
    assert schedules[i].name == m.schedule.name && Baseline(schedules[i]) == now;
  }

  // ── Every step keeps it ──────────────────────────────────────────────────

  /** What only grows. */
  ghost predicate Extends(s: Sys, s': Sys) {
    && s.clock <= s'.clock && s.edition <= s'.edition && s.stored <= s'.stored
    && |s.marks| <= |s'.marks| && forall j :: 0 <= j < |s.marks| ==> s'.marks[j] == s.marks[j]
  }

  lemma NextExtends(env: Env, s: Sys, e: Event)
    requires Next(env, s, e).Some?
    ensures Extends(s, Next(env, s, e).value)
  {
    hide Plan, Begin, IsDue, Merge, RunOf, KeyOf;
  }

  lemma ChangeAges(env: Env, s: Sys, s': Sys, op: Op, change: Change)
    requires ChangeInv(env, s, op, change) && Extends(s, s')
    ensures ChangeInv(env, s', op, change)
  {
    hide ListInv, OwnMark;
    if change.Schedules? {
      ListAges(env, change.schedules, s.clock, s'.clock);
    }
  }

  lemma StageAges(env: Env, s: Sys, s': Sys, op: Op, stage: Stage)
    requires StageInv(env, s, op, stage) && Extends(s, s')
    ensures StageInv(env, s', op, stage)
  {
    hide ListInv, ChangeInv;
    match stage
    case New =>
    case Loaded(base, _) => ListAges(env, base.schedules, s.clock, s'.clock);
    case Ready(change, _) => ChangeAges(env, s, s', op, change);
    case Fetched(change, data, _) =>
      ChangeAges(env, s, s', op, change);
      ListAges(env, data.schedules, s.clock, s'.clock);
  }

  lemma TaskAges(env: Env, s: Sys, s': Sys, id: TaskId, t: Task)
    requires TaskInv(env, s, id, t) && Extends(s, s')
    ensures TaskInv(env, s', id, t)
  {
    StageAges(env, s, s', t.op, t.stage);
    hide StageInv, IsRunOf;
  }

  lemma AnswerInv(env: Env, s: Sys, answered: bool)
    requires ListInv(env, s.store.schedules, s.clock)
    ensures ListInv(env, Answer(s, answered).schedules, s.clock) && SeenInv(s, Edition(s, answered))
  {
  }

  /** The task that a stamp leaves is in order. */
  lemma StampedTask(env: Env, s: Sys, id: TaskId, now: Time)
    requires id in s.tasks && TaskInv(env, s, id, s.tasks[id]) && AfterStamp(env, s, id, s.tasks[id], now).Some?
    ensures var s' := AfterStamp(env, s, id, s.tasks[id], now).value;
      id in s'.tasks ==> TaskInv(env, s', id, s'.tasks[id])
  {
    var t := s.tasks[id];
    var s', plan := AfterStamp(env, s, id, t, now).value, Plan(env, t.op, t.stage.base, now);
    if plan.Some? {
      ListAges(env, t.stage.base.schedules, s.clock, now);
      if plan.value.Schedules? {
        PlanKeepsList(env, t.op, t.stage.base, now);
      }
      if t.op.BeginRun? {
        PlanHasOwnMark(env, t.op, t.stage.base, now, s'.marks[|s.marks|]);
      }
      assert !t.op.BeginRun? ==> (t.op.AppendRun? || t.op.DropRuns? <==> plan.value.Runs?);
      hide ListInv, OwnMark, Upsert, Delete, KeepLast, KeepOthers, Requested, KeyOf, IsRunOf, Begin;
    }
  }

  lemma ReadTask(env: Env, s: Sys, id: TaskId, answered: bool)
    requires id in s.tasks && TaskInv(env, s, id, s.tasks[id]) && AfterRead(s, id, s.tasks[id], answered).Some?
    requires ListInv(env, s.store.schedules, s.clock)
    ensures var s' := AfterRead(s, id, s.tasks[id], answered).value; TaskInv(env, s', id, s'.tasks[id])
  {
    AnswerInv(env, s, answered);
    hide ListInv, IsRunOf, Answer;
  }

  lemma FetchTask(env: Env, s: Sys, id: TaskId, answered: bool)
    requires id in s.tasks && TaskInv(env, s, id, s.tasks[id]) && AfterFetch(s, id, s.tasks[id], answered).Some?
    requires ListInv(env, s.store.schedules, s.clock)
    ensures var s' := AfterFetch(s, id, s.tasks[id], answered).value; TaskInv(env, s', id, s'.tasks[id])
  {
    AnswerInv(env, s, answered);
    hide ListInv, IsRunOf, Answer, OwnMark;
  }

  lemma WriteTask(env: Env, s: Sys, id: TaskId)
    requires id in s.tasks && TaskInv(env, s, id, s.tasks[id]) && AfterWrite(s, id, s.tasks[id]).Some?
    ensures var s' := AfterWrite(s, id, s.tasks[id]).value;
      && (id in s'.tasks ==> TaskInv(env, s', id, s'.tasks[id]))
      && ListInv(env, s'.store.schedules, s'.clock)
  {
    hide ListInv, IsRunOf, OwnMark, Requested;
  }

  lemma UploadTask(env: Env, s: Sys, id: TaskId, upload: Option<Uploaded>)
    requires id in s.tasks && TaskInv(env, s, id, s.tasks[id])
    requires AfterUpload(env, s, id, s.tasks[id], upload).Some?
    ensures var s' := AfterUpload(env, s, id, s.tasks[id], upload).value; TaskInv(env, s', id, s'.tasks[id])
  {
    var m := s.marks[s.tasks[id].op.mark];
    assert IsRunOf(env, RunOf(env, m.schedule, m.manual, m.createdAt, upload), m);
    hide ListInv, IsRunOf, OwnMark, RunOf;
  }

  /** The tasks that an event leaves alone. */
  ghost predicate Untouched(s: Sys, s': Sys, id: TaskId) {
    forall other :: other in s'.tasks && other != id ==> other in s.tasks && s'.tasks[other] == s.tasks[other]
  }

  function TouchedBy(e: Event): TaskId {
    if e.Load? || e.TakeTurn? then WORKER else e.id
  }

  lemma NextTouchesOne(env: Env, s: Sys, e: Event)
    requires Next(env, s, e).Some?
    ensures Untouched(s, Next(env, s, e).value, TouchedBy(e))
  {
    hide Plan, Begin, IsDue, Merge, RunOf, KeyOf;
  }

  lemma TouchedInv(env: Env, s: Sys, e: Event)
    requires TasksInv(env, s) && ListInv(env, s.store.schedules, s.clock) && Next(env, s, e).Some?
    ensures var s', id := Next(env, s, e).value, TouchedBy(e);
      && (id in s'.tasks ==> TaskInv(env, s', id, s'.tasks[id]))
      && ListInv(env, s'.store.schedules, s'.clock)
  {
    var s' := Next(env, s, e).value;
    NextExtends(env, s, e);
    ListAges(env, s.store.schedules, s.clock, s'.clock);
    hide TaskInv, ListInv, Plan, RunOf, Merge, Answer, Edition, KeyOf, Begin, IsDue;
    match e
    case Load(_) =>
    case TakeTurn(_) =>
      if WORKER in s'.tasks {
        NewTask(env, s', WORKER);
      }
    case Call(id, _) => NewTask(env, s', id);
    case Read(id, answered) => ReadTask(env, s, id, answered);
    case Stamp(id, now) => StampedTask(env, s, id, now);
    case Fetch(id, answered) => FetchTask(env, s, id, answered);
    case Write(id) => WriteTask(env, s, id);
    case EndUpload(id, upload) => UploadTask(env, s, id, upload);
  }

  lemma NewTask(env: Env, s: Sys, id: TaskId)
    requires id in s.tasks && s.tasks[id].stage.New?
    requires if id == WORKER then s.tasks[id].op.BeginRun? && s.tasks[id].op.cron.Some? else IsCall(s.tasks[id].op)
    ensures TaskInv(env, s, id, s.tasks[id])
  {
  }

  lemma NextKeepsTasks(env: Env, s: Sys, e: Event)
    requires TasksInv(env, s) && ListInv(env, s.store.schedules, s.clock) && Next(env, s, e).Some?
    ensures TasksInv(env, Next(env, s, e).value)
    ensures ListInv(env, Next(env, s, e).value.store.schedules, Next(env, s, e).value.clock)
  {
    var s' := Next(env, s, e).value;
    NextExtends(env, s, e);
    NextTouchesOne(env, s, e);
    TouchedInv(env, s, e);
    hide Next, TaskInv, ListInv, Extends;
    forall id | id in s'.tasks ensures TaskInv(env, s', id, s'.tasks[id]) {
      if id != TouchedBy(e) {
        TaskAges(env, s, s', id, s.tasks[id]);
      }
    }
  }

  // Marks

  lemma StampKeepsMarks(env: Env, s: Sys, id: TaskId, now: Time)
    requires TasksInv(env, s) && MarksInv(s) && id in s.tasks && AfterStamp(env, s, id, s.tasks[id], now).Some?
    ensures MarksInv(AfterStamp(env, s, id, s.tasks[id], now).value)
  {
    assert TaskInv(env, s, id, s.tasks[id]);
    hide Plan, Begin, KeyOf, ListInv, TasksInv, IsRunOf;
  }

  lemma WriteKeepsMarks(env: Env, s: Sys, id: TaskId)
    requires TasksInv(env, s) && MarksInv(s) && id in s.tasks && AfterWrite(s, id, s.tasks[id]).Some?
    ensures MarksInv(AfterWrite(s, id, s.tasks[id]).value)
  {
    assert TaskInv(env, s, id, s.tasks[id]);
    hide Merge, ListInv, TasksInv, IsRunOf, OwnMark, Requested;
  }

  lemma UploadKeepsMarks(env: Env, s: Sys, id: TaskId, upload: Option<Uploaded>)
    requires TasksInv(env, s) && MarksInv(s) && id in s.tasks && AfterUpload(env, s, id, s.tasks[id], upload).Some?
    ensures MarksInv(AfterUpload(env, s, id, s.tasks[id], upload).value)
  {
    assert TaskInv(env, s, id, s.tasks[id]);
    hide RunOf, ListInv, TasksInv, IsRunOf, OwnMark;
  }

  lemma NextKeepsMarks(env: Env, s: Sys, e: Event)
    requires TasksInv(env, s) && MarksInv(s) && Next(env, s, e).Some?
    ensures MarksInv(Next(env, s, e).value)
  {
    if e.Stamp? {
      StampKeepsMarks(env, s, e.id, e.now);
      hide *;
    } else if e.Write? {
      WriteKeepsMarks(env, s, e.id);
      hide *;
    } else if e.EndUpload? {
      UploadKeepsMarks(env, s, e.id, e.upload);
      hide *;
    } else {
      hide TasksInv, IsDue, Answer, Edition;
    }
  }

  // The worker

  lemma LoadKeepsWorker(env: Env, s: Sys, answered: bool)
    requires Inv(env, s) && AfterLoad(s, answered).Some?
    ensures WorkerInv(env, AfterLoad(s, answered).value)
  {
    AnswerInv(env, s, answered);
    hide ListInv, TasksInv, LogInv, Answer;
  }

  lemma TurnKeepsWorker(env: Env, s: Sys, check: Time)
    requires IsCron(env) && Inv(env, s) && AfterTurn(env, s, check).Some?
    ensures WorkerInv(env, AfterTurn(env, s, check).value)
  {
    var l := s.worker.loaded[s.worker.next];
    ListAges(env, s.worker.loaded, s.clock, check);
    if IsDue(env, l, check) {
      assert Runnable(env, l);
      DueExactly(env, l, check);
    }
    hide ListInv, TasksInv, LogInv, MarksInv, IsDue, Runnable, IsCron, Baseline;
    TurnsOnlyGrow(s, AfterTurn(env, s, check).value);
  }

  /** Without new marks in this poll, what was taken stays taken. */
  lemma TurnsOnlyGrow(s: Sys, s': Sys)
    requires TurnsTaken(s) && s'.marks == s.marks && Served(s) <= Served(s')
    requires s'.worker.loaded == s.worker.loaded && s'.worker.since == s.worker.since
    ensures TurnsTaken(s')
  {
    hide Served;
    forall j | s'.worker.since <= j < |s'.marks| && !s'.marks[j].manual
      ensures HadItsTurn(s', s'.marks[j].schedule.name)
    {
      assert HadItsTurn(s, s.marks[j].schedule.name);
    }
  }

  lemma StampKeepsTurns(env: Env, s: Sys, id: TaskId, now: Time)
    requires Inv(env, s) && id in s.tasks && AfterStamp(env, s, id, s.tasks[id], now).Some?
    ensures TurnsTaken(AfterStamp(env, s, id, s.tasks[id], now).value)
  {
    var t, s' := s.tasks[id], AfterStamp(env, s, id, s.tasks[id], now).value;
    assert TaskInv(env, s, id, t);
    hide ListInv, TasksInv, LogInv, MarksInv, IsRunOf, TickBetween, Baseline;
    assert s.worker == s'.worker && Served(s) <= Served(s');
    forall j | s'.worker.since <= j < |s'.marks| && !s'.marks[j].manual
      ensures HadItsTurn(s', s'.marks[j].schedule.name)
    {
      if j < |s.marks| {
        assert s'.marks[j] == s.marks[j];
        assert HadItsTurn(s, s.marks[j].schedule.name);
      } else {
        assert id == WORKER && t.op.BeginRun? && Beginning(s) && Served(s') == s.worker.next;
        assert s'.worker.loaded[s.worker.next - 1].name == s'.marks[j].schedule.name;
      }
    }
  }

  lemma TickStays(env: Env, cron: string, after: Time, upTo: Time, later: Time)
    requires TickBetween(env, cron, after, upTo) && upTo <= later
    ensures TickBetween(env, cron, after, later)
  {
    var k :| after < k <= upTo && env.tick(cron, k);
  }

  /** Steps other than the worker's own keep what it knows. */
  lemma WorkerAges(env: Env, s: Sys, s': Sys)
    requires Inv(env, s) && Extends(s, s') && s'.worker == s.worker && TurnsTaken(s')
    requires Beginning(s') ==> Beginning(s) && s'.tasks[WORKER].op == s.tasks[WORKER].op
    ensures WorkerInv(env, s')
  {
    ListAges(env, s.worker.loaded, s.clock, s'.clock);
    if Beginning(s') {
      var l := s.worker.loaded[s.worker.next - 1];
      TickStays(env, l.cron, Baseline(l), s.clock, s'.clock);
    }
    hide ListInv, TasksInv, LogInv, MarksInv, TickBetween, Baseline, TurnsTaken;
  }

  lemma TaskStepKeepsWorker(env: Env, s: Sys, e: Event)
    requires Inv(env, s) && Next(env, s, e).Some? && !e.Load? && !e.TakeTurn?
    ensures WorkerInv(env, Next(env, s, e).value)
  {
    var s' := Next(env, s, e).value;
    NextExtends(env, s, e);
    if e.Stamp? {
      StampKeepsTurns(env, s, e.id, e.now);
      hide TurnsTaken;
    } else {
      hide Inv, Extends, Answer, Edition, Merge, RunOf;
      assert Served(s) <= Served(s') && s'.marks == s.marks && s'.worker == s.worker;
      TurnsOnlyGrow(s, s') by {
        assert TurnsTaken(s) by {
          InvTurns(env, s);
        }
      }
    }
    hide Inv, TurnsTaken, Extends, Plan, Begin, RunOf, Merge, Answer, Edition, KeyOf;
    WorkerAges(env, s, s');
  }

  lemma InvTurns(env: Env, s: Sys)
    requires Inv(env, s)
    ensures TurnsTaken(s)
  {
    hide ListInv, TasksInv, LogInv, MarksInv, TurnsTaken;
  }

  lemma NextKeepsWorker(env: Env, s: Sys, e: Event)
    requires IsCron(env) && Inv(env, s) && Next(env, s, e).Some?
    ensures WorkerInv(env, Next(env, s, e).value)
  {
    hide Inv, WorkerInv, IsCron;
    if e.Load? {
      LoadKeepsWorker(env, s, e.answered);
    } else if e.TakeTurn? {
      TurnKeepsWorker(env, s, e.check);
    } else {
      TaskStepKeepsWorker(env, s, e);
    }
  }

  // The log

  lemma NewTaskKeepsLog(env: Env, s: Sys, s': Sys, id: TaskId)
    requires LogInv(env, s) && Extends(s, s') && s'.log == s.log && id in s'.tasks && Untouched(s, s', id)
    requires var k := MarkOf(s'.tasks[id].op);
      k == None || (id in s.tasks && k == MarkOf(s.tasks[id].op)) || k.value >= |s.marks|
    requires forall a :: a in s.tasks && MarkOf(s.tasks[a].op).Some? ==> MarkOf(s.tasks[a].op).value < |s.marks|
    ensures LogInv(env, s')
  {
    hide IsRunOf, MarkOf;
  }

  lemma EndedTaskKeepsLog(env: Env, s: Sys, s': Sys, id: TaskId)
    requires LogInv(env, s) && Extends(s, s') && s'.tasks == s.tasks - {id} && id in s.tasks
    requires || s'.log == s.log
             || (|s'.log| == |s.log| + 1 && s'.log[..|s.log|] == s.log && s'.log[|s.log|].Dropped?)
    ensures LogInv(env, s')
  {
    hide IsRunOf, MarkOf;
  }

  lemma AppendKeepsLog(env: Env, s: Sys, s': Sys, id: TaskId, k: nat, run: Run)
    requires LogInv(env, s) && Extends(s, s') && s'.tasks == s.tasks - {id} && id in s.tasks
    requires s.tasks[id].op == AppendRun(k, run) && s'.log == s.log + [Appended(k, run)]
    requires k < |s.marks| && k in s.stored && IsRunOf(env, run, s.marks[k])
    ensures LogInv(env, s')
  {
    hide IsRunOf;
  }

  lemma WriteKeepsLog(env: Env, s: Sys, id: TaskId)
    requires TasksInv(env, s) && LogInv(env, s) && Next(env, s, Write(id)).Some?
    ensures LogInv(env, Next(env, s, Write(id)).value)
  {
    var s' := Next(env, s, Write(id)).value;
    NextExtends(env, s, Write(id));
    assert TaskInv(env, s, id, s.tasks[id]);
    MarksOfTasks(env, s);
    hide LogInv, Extends, TasksInv, StageInv, Merge, IsRunOf, Requested;
    match s.tasks[id].op
    case Upload(_) =>
      NewTaskKeepsLog(env, s, s', id);
    case AppendRun(k, run) => AppendKeepsLog(env, s, s', id, k, run);
    case _ => EndedTaskKeepsLog(env, s, s', id);
  }

  lemma MarksOfTasks(env: Env, s: Sys)
    requires TasksInv(env, s)
    ensures forall a :: a in s.tasks && MarkOf(s.tasks[a].op).Some? ==> MarkOf(s.tasks[a].op).value < |s.marks|
  {
    forall a | a in s.tasks && MarkOf(s.tasks[a].op).Some? ensures MarkOf(s.tasks[a].op).value < |s.marks| {
      assert TaskInv(env, s, a, s.tasks[a]);
    }
  }

  lemma StampKeepsLog(env: Env, s: Sys, id: TaskId, now: Time)
    requires TasksInv(env, s) && LogInv(env, s) && Next(env, s, Stamp(id, now)).Some?
    ensures LogInv(env, Next(env, s, Stamp(id, now)).value)
  {
    var s' := Next(env, s, Stamp(id, now)).value;
    NextExtends(env, s, Stamp(id, now));
    MarksOfTasks(env, s);
    hide LogInv, Extends, TasksInv, Plan, Begin, KeyOf;
    if id in s'.tasks {
      NewTaskKeepsLog(env, s, s', id);
    } else {
      EndedTaskKeepsLog(env, s, s', id);
    }
  }

  lemma NextKeepsLog(env: Env, s: Sys, e: Event)
    requires TasksInv(env, s) && LogInv(env, s) && Next(env, s, e).Some?
    ensures LogInv(env, Next(env, s, e).value)
  {
    var s' := Next(env, s, e).value;
    if e.Write? {
      WriteKeepsLog(env, s, e.id);
    } else if e.Stamp? {
      StampKeepsLog(env, s, e.id, e.now);
    } else if TouchedBy(e) in s'.tasks {
      NextExtends(env, s, e);
      NextTouchesOne(env, s, e);
      MarksOfTasks(env, s);
      hide LogInv, Extends, Untouched, TasksInv, IsDue, RunOf, Answer, Edition;
      NewTaskKeepsLog(env, s, s', TouchedBy(e));
    } else {
      hide IsDue, TasksInv, Answer;
      assert s'.tasks == s.tasks && s'.log == s.log && s'.marks == s.marks && s'.stored == s.stored;
    }
    hide *;
  }

  lemma NextKeepsInv(env: Env, s: Sys, e: Event)
    requires IsCron(env) && Inv(env, s) && Next(env, s, e).Some?
    ensures Inv(env, Next(env, s, e).value)
  {
    NextKeepsTasks(env, s, e);
    NextKeepsMarks(env, s, e);
    NextKeepsWorker(env, s, e);
    NextKeepsLog(env, s, e);
    hide Next, IsCron, ListInv, TasksInv, MarksInv, WorkerInv, LogInv;
  }

  lemma {:induction false} HistoryKeepsInv(env: Env, events: seq<Event>, states: seq<Sys>, n: nat)
    requires IsCron(env) && IsHistory(env, events, states) && n <= |events|
    ensures Inv(env, states[n])
  {
    if n == 0 {
    } else {
      hide Next, Initial, Inv;
      HistoryKeepsInv(env, events, states, n - 1);
      assert Next(env, states[n - 1], events[n - 1]) == Some(states[n - 1 + 1]);
      NextKeepsInv(env, states[n - 1], events[n - 1]);
    }
  }
}
