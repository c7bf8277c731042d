/** Backup schedules: cron polling with catch-up, manual runs, edits, and the bounded history of runs. */
module BackupScheduler {
  import opened Strings
  import opened Wrappers

  // ── Cron expressions ─────────────────────────────────────────────────────

  /** How many words `split_whitespace` finds; `inside` says whether `s` continues a word. */
  function Fields(s: string, inside: bool): nat {
    if s == "" then 0
    else if IsWhitespace(s[0]) then Fields(s[1..], false)
    else (if inside then 0 else 1) + Fields(s[1..], true)
  }

  /** Five fields get a leading field for the seconds; six or seven stay; all else is an error. */
  function NormalizeCron(input: string): Option<string> {
    var trimmed := Trim(input);
    var fields := Fields(trimmed, false);
    if trimmed == "" then None
    else if fields == 5 then Some("0 " + trimmed)
    else if fields == 6 || fields == 7 then Some(trimmed)
    else None
  }

  ghost predicate IsWord(w: string) {
    w != "" && forall c :: c in w ==> !IsWhitespace(c)
  }

  /** Words between single blanks are counted one by one. */
  lemma {:induction false} FieldsOfWords(words: seq<string>)
    requires forall w :: w in words ==> IsWord(w)
    ensures Fields(Join(words, " "), false) == |words|
  {
    if words == [] {
    } else {
      assert words[0] in words && forall w :: w in words[1..] ==> w in words;
      FieldsOfWords(words[1..]);
      var rest := if |words| == 1 then "" else " " + Join(words[1..], " ");
      assert Join(words, " ") == words[0] + rest by {
        assert words[0] + " " + Join(words[1..], " ") == words[0] + (" " + Join(words[1..], " "));
        assert words[0] + "" == words[0];
      }
      if |words| > 1 {
        assert rest[1..] == Join(words[1..], " ");
      }
      FieldsAfterWord(words[0], rest);
    }
  }

  lemma {:induction false} FieldsInWord(w: string, rest: string)
    requires (forall c :: c in w ==> !IsWhitespace(c)) && (rest == "" || IsWhitespace(rest[0]))
    ensures Fields(w + rest, true) == Fields(rest, false)
  {
    if w == "" {
      assert w + rest == rest;
    } else {
      assert w[0] in w && (w + rest)[1..] == w[1..] + rest;
      FieldsInWord(w[1..], rest);
    }
  }

  lemma FieldsAfterWord(w: string, rest: string)
    requires IsWord(w) && (rest == "" || IsWhitespace(rest[0]))
    ensures Fields(w + rest, false) == 1 + Fields(rest, false)
  {
    assert w[0] in w && (w + rest)[1..] == w[1..] + rest;
    FieldsInWord(w[1..], rest);
  }

  lemma {:induction false} WordsAreTrimmed(words: seq<string>)
    requires words != [] && forall w :: w in words ==> IsWord(w)
    ensures Join(words, " ") != "" && Trimmed(Join(words, " "))
  {
    var w, s := words[0], Join(words, " ");
    assert w in words && w[0] in w && w[|w| - 1] in w;
    if |words| == 1 {
    } else {
      assert forall v :: v in words[1..] ==> v in words;
      WordsAreTrimmed(words[1..]);
      var rest := Join(words[1..], " ");
      assert s == w + " " + rest && s[0] == w[0] && s[|s| - 1] == rest[|rest| - 1];
    }
  }

  /** Five words get a zero for the seconds in front, six and seven stay, any other number is refused. */
  lemma NormalizeWords(words: seq<string>)
    requires forall w :: w in words ==> IsWord(w)
    ensures var s := Join(words, " ");
      NormalizeCron(s) ==
        if |words| == 5 then Some("0 " + s) else if |words| == 6 || |words| == 7 then Some(s) else None
  {
    var s := Join(words, " ");
    FieldsOfWords(words);
    if words != [] {
      WordsAreTrimmed(words);
    }
    TrimResult(s);
    hide Trim, Fields, Join, Trimmed, IsWord;
  }

  /** A normalized expression, which is what gets stored, is normal already. */
  lemma NormalizeIsStable(input: string)
    requires NormalizeCron(input).Some?
    ensures NormalizeCron(Trim(NormalizeCron(input).value)) == NormalizeCron(input)
  {
    var t := Trim(input);
    TrimResult(input);
    var n := NormalizeCron(input).value;
    if Fields(t, false) == 5 {
      assert n == "0 " + t && n[1..] == " " + t && (" " + t)[1..] == t;
      assert Fields(n, false) == 1 + Fields(" " + t, true) == 1 + Fields(t, false);
      assert n[|n| - 1] == t[|t| - 1];
    }
    hide Trim, Fields;
    assert Trimmed(n);
    TrimResult(n);
  }

  // ── Schedules and runs ───────────────────────────────────────────────────

  type Time = int

  datatype Schedule = Schedule(
    name: string, cron: string, timezone: string, paused: bool, includeNamespaces: seq<string>,
    excludeNamespaces: seq<string>, updatedAt: Time, lastRunAt: Option<Time>)

  datatype Phase = Completed | Failed

  datatype Run = Run(
    name: string, scheduleName: string, phase: Phase, createdAt: Time, manual: bool, objectKey: string,
    sizeBytes: Option<nat>, includeNamespaces: seq<string>, excludeNamespaces: seq<string>, resourceSummary: string)

  /** What the upload of a snapshot reports when it succeeds. */
  datatype Uploaded = Uploaded(key: string, summary: string, size: nat)

  datatype Store = Store(schedules: seq<Schedule>, runs: seq<Run>)

  /**
   * The cron library and the clock's formatting: which expressions parse, when they tick, and the tick
   * after a time.
   */
  datatype Env = Env(
    parses: string -> bool, tick: (string, Time) -> bool, next: (string, Time) -> Option<Time>, stamp: Time -> string)

  /** `next` gives the first tick after a time. */
  ghost predicate IsCron(env: Env) {
    forall cron, t :: env.parses(cron) ==>
      match env.next(cron, t)
      case None => forall k :: k > t ==> !env.tick(cron, k)
      case Some(n) => n > t && env.tick(cron, n) && forall k :: t < k < n ==> !env.tick(cron, k)
  }

  const HISTORY := 500

  function KeepLast(runs: seq<Run>): seq<Run> {
    if |runs| > HISTORY then runs[|runs| - HISTORY..] else runs
  }

  function ResourceSummary(included: seq<string>, excluded: seq<string>): string {
    (if included == [] then "All namespaces" else "Include: " + Join(included, ", "))
    + " | "
    + (if excluded == [] then "Exclude: none" else "Exclude: " + Join(excluded, ", "))
  }

  function RunOf(env: Env, s: Schedule, manual: bool, now: Time, upload: Option<Uploaded>): Run {
    Run(s.name + "-" + env.stamp(now), s.name, if upload.Some? then Completed else Failed, now, manual,
        if upload.Some? then upload.value.key else "",
        if upload.Some? then Some(upload.value.size) else None,
        s.includeNamespaces, s.excludeNamespaces,
        if upload.Some? then upload.value.summary else ResourceSummary(s.includeNamespaces, s.excludeNamespaces))
  }

  /** The run tells what happened: which schedule was run when and how, and what its upload reported. */
  ghost predicate Reports(env: Env, run: Run, s: Schedule, manual: bool, at: Time, upload: Option<Uploaded>) {
    && run.name == s.name + "-" + env.stamp(at)
    && run.scheduleName == s.name && run.manual == manual && run.createdAt == at
    && run.includeNamespaces == s.includeNamespaces && run.excludeNamespaces == s.excludeNamespaces
    && (run.phase == Completed <==> upload.Some?)
    && (upload.Some? ==>
          && run.objectKey == upload.value.key && run.sizeBytes == Some(upload.value.size)
          && run.resourceSummary == upload.value.summary)
    && (upload.None? ==>
          && run.objectKey == "" && run.sizeBytes == None
          && SummaryOf(run.resourceSummary, s.includeNamespaces, s.excludeNamespaces))
  }

  /** The text names the namespaces that a snapshot takes and those that it leaves out. */
  ghost predicate SummaryOf(text: string, included: seq<string>, excluded: seq<string>) {
    exists taken, left :: text == taken + " | " + left
      && Names(taken, "All namespaces", "Include: ", included) && Names(left, "Exclude: none", "Exclude: ", excluded)
  }

  /** `nothing` for no names, else `prefix` and the names, separated by commas. */
  ghost predicate Names(text: string, nothing: string, prefix: string, names: seq<string>) {
    if names == [] then text == nothing
    else
      && prefix <= text
      && ((forall n :: n in names ==> Clean(n, ", ")) ==> Split(text[|prefix|..], ", ") == names)
  }

  lemma NamesJoined(nothing: string, prefix: string, names: seq<string>)
    ensures Names(if names == [] then nothing else prefix + Join(names, ", "), nothing, prefix, names)
  {
    var text := prefix + Join(names, ", ");
    assert text[|prefix|..] == Join(names, ", ");
    if names != [] && forall n :: n in names ==> Clean(n, ", ") {
      SplitJoin(names, ", ");
    }
    hide Join, Split, Clean;
  }

  lemma SummaryNames(included: seq<string>, excluded: seq<string>)
    ensures SummaryOf(ResourceSummary(included, excluded), included, excluded)
  {
    var taken := if included == [] then "All namespaces" else "Include: " + Join(included, ", ");
    var left := if excluded == [] then "Exclude: none" else "Exclude: " + Join(excluded, ", ");
    NamesJoined("All namespaces", "Include: ", included);
    NamesJoined("Exclude: none", "Exclude: ", excluded);
    hide Names, Join;
    assert ResourceSummary(included, excluded) == taken + " | " + left;
  }

  lemma RunReports(env: Env, s: Schedule, manual: bool, now: Time, upload: Option<Uploaded>)
    ensures Reports(env, RunOf(env, s, manual, now, upload), s, manual, now, upload)
  {
    SummaryNames(s.includeNamespaces, s.excludeNamespaces);
    hide ResourceSummary, SummaryOf;
  }

  /** When the schedule last ran, or was last saved if it never ran. */
  function Baseline(s: Schedule): Time {
    if s.lastRunAt.Some? then s.lastRunAt.value else s.updatedAt
  }

  function IndexOf(schedules: seq<Schedule>, name: string): (i: nat)
    ensures i <= |schedules| && (i < |schedules| ==> schedules[i].name == name)
    ensures forall j :: 0 <= j < i ==> schedules[j].name != name
  {
    if schedules == [] then 0
    else if schedules[0].name == name then 0
    else 1 + IndexOf(schedules[1..], name)
  }

  // ── The operations ───────────────────────────────────────────────────────

  datatype Reply = Created(name: string) | NotFound | Paused | UploadFailed | Invalid | Saved

  datatype Outcome = Outcome(store: Store, reply: Reply)

  function MarkRun(s: Schedule, now: Time): Schedule {
    s.(lastRunAt := Some(now), updatedAt := now)
  }

  /** What a run does before its upload: it is refused, or the schedule is marked and a snapshot taken. */
  datatype Begun = Refused(reply: Reply) | Marked(schedules: seq<Schedule>, snapshot: Schedule)

  function Begin(schedules: seq<Schedule>, name: string, now: Time): Begun {
    var i := IndexOf(schedules, name);
    if i == |schedules| then Refused(NotFound)
    else if schedules[i].paused then Refused(Paused)
    else Marked(schedules[i := MarkRun(schedules[i], now)], schedules[i])
  }

  /** A whole run, with nothing else happening during its upload. */
  function Trigger(
      env: Env, store: Store, name: string, manual: bool, now: Time, upload: Option<Uploaded>): Outcome
  {
    match Begin(store.schedules, name, now)
    case Refused(reply) => Outcome(store, reply)
    case Marked(schedules, snapshot) =>
      var run := RunOf(env, snapshot, manual, now, upload);
      Outcome(Store(schedules, KeepLast(store.runs + [run])),
              if upload.Some? then Created(run.name) else UploadFailed)
  }

  /** Schedule `i` was run: it is marked with the time, and its run is the last one stored. */
  ghost predicate Ran(
      env: Env, before: Store, after: Store, i: int, name: string, manual: bool, now: Time, upload: Option<Uploaded>)
  {
    && 0 <= i < |before.schedules| && before.schedules[i].name == name && !before.schedules[i].paused
    && after.schedules == before.schedules[i := before.schedules[i].(lastRunAt := Some(now), updatedAt := now)]
    && |after.runs| == (if |before.runs| < 500 then |before.runs| + 1 else 500)
    && Reports(env, after.runs[|after.runs| - 1], before.schedules[i], manual, now, upload)
    && after.runs[..|after.runs| - 1] == before.runs[|before.runs| + 1 - |after.runs|..]
  }

  /**
   * A run is refused without a schedule of that name, or if it is paused; then nothing changes. Else
   * it is stored, whether its upload succeeds or not, and the answer says which.
   */
  ghost predicate TriggerMeans(
      env: Env, before: Store, after: Store, reply: Reply, name: string, manual: bool, now: Time,
      upload: Option<Uploaded>)
  {
    && (reply == NotFound <==> forall s :: s in before.schedules ==> s.name != name)
    && (reply == NotFound || reply == Paused ==> after == before)
    && (reply != NotFound && reply != Paused ==>
          && reply == (if upload.Some? then Created(name + "-" + env.stamp(now)) else UploadFailed)
          && exists i :: Ran(env, before, after, i, name, manual, now, upload))
    && (reply == Paused ==> exists s :: s in before.schedules && s.name == name && s.paused)
  }

  lemma KeepLastIs(runs: seq<Run>, run: Run)
    ensures var after := KeepLast(runs + [run]);
      && |after| == (if |runs| < 500 then |runs| + 1 else 500) && after[|after| - 1] == run
      && after[..|after| - 1] == runs[|runs| + 1 - |after|..]
  {
  }

  lemma RanExact(env: Env, store: Store, i: nat, manual: bool, now: Time, upload: Option<Uploaded>)
    requires i < |store.schedules| && !store.schedules[i].paused
    ensures var s := store.schedules[i];
      var after := Store(store.schedules[i := MarkRun(s, now)],
                         KeepLast(store.runs + [RunOf(env, s, manual, now, upload)]));
      Ran(env, store, after, i, s.name, manual, now, upload)
  {
    RunReports(env, store.schedules[i], manual, now, upload);
    KeepLastIs(store.runs, RunOf(env, store.schedules[i], manual, now, upload));
    hide RunOf, Reports, KeepLast;
  }

  lemma TriggerExact(env: Env, store: Store, name: string, manual: bool, now: Time, upload: Option<Uploaded>)
    ensures var o := Trigger(env, store, name, manual, now, upload);
      TriggerMeans(env, store, o.store, o.reply, name, manual, now, upload)
  {
    hide Ran, KeepLast, MarkRun;
    var i := IndexOf(store.schedules, name);
    if i < |store.schedules| {
      assert store.schedules[i] in store.schedules;
      if !store.schedules[i].paused {
        assert RunOf(env, store.schedules[i], manual, now, upload).name == name + "-" + env.stamp(now);
        hide RunOf;
        RanExact(env, store, i, manual, now, upload);
      }
    }
  }

  /** One schedule's turn in a poll: the clock at the check, the clock at the run, and the upload. */
  datatype Turn = Turn(check: Time, now: Time, upload: Option<Uploaded>)

  function IsDue(env: Env, s: Schedule, check: Time): bool {
    var cron := NormalizeCron(Trim(s.cron));
    && !s.paused
    && cron.Some?
    && env.parses(cron.value)
    && env.next(cron.value, Baseline(s)).Some?
    && env.next(cron.value, Baseline(s)).value <= check
  }

  /** A turn that nothing else falls into: due by the loaded schedule, run by the stored one. */
  function TurnOf(env: Env, store: Store, s: Schedule, t: Turn): Store {
    if IsDue(env, s, t.check) then Trigger(env, store, s.name, false, t.now, t.upload).store else store
  }

  /** A poll that nothing else falls into. */
  function PollLoaded(env: Env, store: Store, loaded: seq<Schedule>, turns: seq<Turn>): Store
    requires |turns| == |loaded|
  {
    if loaded == [] then store
    else
      var last := |loaded| - 1;
      TurnOf(env, PollLoaded(env, store, loaded[..last], turns[..last]), loaded[last], turns[last])
  }

  datatype Request = Request(
    name: string, cron: string, timezone: string, paused: bool, includeNamespaces: seq<string>,
    excludeNamespaces: seq<string>)

  function Edited(s: Schedule, req: Request, cron: string, now: Time): Schedule {
    s.(cron := cron, timezone := req.timezone, paused := req.paused, includeNamespaces := req.includeNamespaces,
       excludeNamespaces := req.excludeNamespaces, updatedAt := now)
  }

  function Upsert(env: Env, store: Store, req: Request, now: Time): Outcome {
    var name, cron := Trim(req.name), NormalizeCron(Trim(req.cron));
    if name == "" || cron.None? || !env.parses(cron.value) then Outcome(store, Invalid)
    else
      var i := IndexOf(store.schedules, name);
      var schedules :=
        if i < |store.schedules| then store.schedules[i := Edited(store.schedules[i], req, cron.value, now)]
        else store.schedules + [Schedule(name, cron.value, req.timezone, req.paused, req.includeNamespaces,
                                         req.excludeNamespaces, now, None)];
      Outcome(store.(schedules := schedules), Saved)
  }

  function Without(schedules: seq<Schedule>, name: string): (r: seq<Schedule>)
    ensures forall s :: s in r <==> s in schedules && s.name != name
  {
    if schedules == [] then []
    else
      var last := schedules[|schedules| - 1];
      Without(schedules[..|schedules| - 1], name) + if last.name == name then [] else [last]
  }

  /** `kept` are the elements at the places `at`, in their order, and these are all that `keep` admits. */
  ghost predicate Keeps<T(!new)>(all: seq<T>, kept: seq<T>, at: seq<nat>, keep: T -> bool) {
    && |at| == |kept| && (forall k, l :: 0 <= k < l < |at| ==> at[k] < at[l])
    && (forall k :: 0 <= k < |at| ==> at[k] < |all| && kept[k] == all[at[k]] && keep(kept[k]))
    && (forall i :: 0 <= i < |all| && keep(all[i]) ==> i in at)
  }

  lemma KeepsOneMore<T(!new)>(all: seq<T>, kept: seq<T>, at: seq<nat>, keep: T -> bool, last: T)
      returns (more: seq<nat>)
    requires Keeps(all, kept, at, keep)
    ensures Keeps(all + [last], kept + if keep(last) then [last] else [], more, keep)
  {
    if keep(last) {
      more := at + [|all|];
      KeepsAlso(all, kept, at, keep, last);
    } else {
      more := at;
      assert kept + [] == kept;
    }
  }

  lemma KeepsAlso<T(!new)>(all: seq<T>, kept: seq<T>, at: seq<nat>, keep: T -> bool, last: T)
    requires Keeps(all, kept, at, keep) && keep(last)
    ensures Keeps(all + [last], kept + [last], at + [|all|], keep)
  {
    var longer, more := all + [last], at + [|all|];
    assert more[|at|] == |all|;
    forall i | 0 <= i < |longer| && keep(longer[i]) ensures i in more {
      if i < |all| {
        assert longer[i] == all[i] && i in at;
      }
    }
  }

  ghost predicate KeepsOthers(all: seq<Schedule>, kept: seq<Schedule>, at: seq<nat>, name: string) {
    Keeps(all, kept, at, (s: Schedule) => s.name != name)
  }

  lemma {:induction false} WithoutKeeps(schedules: seq<Schedule>, name: string) returns (at: seq<nat>)
    ensures KeepsOthers(schedules, Without(schedules, name), at, name)
  {
    if schedules == [] {
      at := [];
    } else {
      var init, last := schedules[..|schedules| - 1], schedules[|schedules| - 1];
      at := WithoutKeeps(init, name);
      hide Keeps;
      at := KeepsOneMore(init, Without(init, name), at, (s: Schedule) => s.name != name, last);
      assert init + [last] == schedules;
    }
  }

  function Delete(store: Store, name: string): Store {
    if Trim(name) == "" then store else store.(schedules := Without(store.schedules, Trim(name)))
  }

  // ── What is stored ───────────────────────────────────────────────────────

  ghost predicate UniqueNames(schedules: seq<Schedule>) {
    forall i, j :: 0 <= i < j < |schedules| ==> schedules[i].name != schedules[j].name
  }

  /** Only expressions that a poll accepts get stored. */
  predicate Runnable(env: Env, s: Schedule) {
    NormalizeCron(Trim(s.cron)) == Some(s.cron) && env.parses(s.cron)
  }

  /** A stored schedule is due exactly if its cron ticked after the baseline and not after the check. */
  lemma DueExactly(env: Env, s: Schedule, check: Time)
    requires IsCron(env) && Runnable(env, s)
    ensures IsDue(env, s, check) <==> !s.paused && exists k :: Baseline(s) < k <= check && env.tick(s.cron, k)
  {
    hide NormalizeCron, Trim;
    var n := env.next(s.cron, Baseline(s));
    if n.Some? && n.value <= check {
      assert env.tick(s.cron, n.value);
    }
  }

  // ── A poll that nothing else falls into ──────────────────────────────────

  function AfterTurn(env: Env, s: Schedule, t: Turn): Schedule {
    if IsDue(env, s, t.check) then MarkRun(s, t.now) else s
  }

  function TurnRuns(env: Env, s: Schedule, t: Turn): (runs: seq<Run>)
    ensures |runs| <= 1
  {
    if IsDue(env, s, t.check) then [RunOf(env, s, false, t.now, t.upload)] else []
  }

  function PollRuns(env: Env, schedules: seq<Schedule>, turns: seq<Turn>): seq<Run>
    requires |turns| == |schedules|
  {
    if schedules == [] then []
    else
      var last := |schedules| - 1;
      PollRuns(env, schedules[..last], turns[..last]) + TurnRuns(env, schedules[last], turns[last])
  }

  lemma KeepLastPush(runs: seq<Run>, run: Run)
    ensures KeepLast(KeepLast(runs) + [run]) == KeepLast(runs + [run])
  {
    if |runs| > HISTORY {
      assert (runs[|runs| - HISTORY..] + [run])[1..] == (runs + [run])[|runs| + 1 - HISTORY..];
    }
  }

  /** One turn, when the stored schedule is the loaded one. */
  lemma TurnExact(env: Env, store: Store, i: nat, t: Turn)
    requires i < |store.schedules| && IndexOf(store.schedules, store.schedules[i].name) == i
    requires |store.runs| <= HISTORY
    ensures var s := store.schedules[i];
      TurnOf(env, store, s, t)
      == Store(store.schedules[i := AfterTurn(env, s, t)], KeepLast(store.runs + TurnRuns(env, s, t)))
  {
    assert store.runs + [] == store.runs;
    hide RunOf;
  }

  /** What a poll has done when `n` turns are over. */
  ghost predicate PolledUpTo(env: Env, store: Store, turns: seq<Turn>, n: nat, after: Store)
    requires |turns| == |store.schedules| && n <= |turns|
  {
    && |after.schedules| == |turns|
    && (forall j :: 0 <= j < n ==> after.schedules[j] == AfterTurn(env, store.schedules[j], turns[j]))
    && (forall j :: n <= j < |turns| ==> after.schedules[j] == store.schedules[j])
    && after.runs == KeepLast(store.runs + PollRuns(env, store.schedules[..n], turns[..n]))
  }

  lemma PolledNames(env: Env, store: Store, turns: seq<Turn>, n: nat, after: Store)
    requires UniqueNames(store.schedules) && |turns| == |store.schedules| && n < |turns|
    requires PolledUpTo(env, store, turns, n, after)
    ensures IndexOf(after.schedules, after.schedules[n].name) == n && |after.runs| <= HISTORY
  {
    hide IsDue, PollRuns;
    forall j | 0 <= j < n ensures after.schedules[j].name != after.schedules[n].name {
      assert after.schedules[j].name == store.schedules[j].name;
    }
  }

  lemma KeepLastAppend(runs: seq<Run>, more: seq<Run>)
    requires |more| <= 1
    ensures KeepLast(KeepLast(runs) + more) == KeepLast(runs + more)
  {
    if more == [] {
      assert KeepLast(runs) + [] == KeepLast(runs) && runs + [] == runs;
    } else {
      assert more == [more[0]];
      KeepLastPush(runs, more[0]);
    }
  }

  lemma PolledPush(env: Env, store: Store, turns: seq<Turn>, n: nat, before: Store)
    requires UniqueNames(store.schedules) && |turns| == |store.schedules| && n < |turns|
    requires PolledUpTo(env, store, turns, n, before)
    ensures PolledUpTo(env, store, turns, n + 1, TurnOf(env, before, store.schedules[n], turns[n]))
  {
    hide AfterTurn, TurnOf, TurnRuns, KeepLast;
    var s, t := store.schedules[n], turns[n];
    var runs, more := PollRuns(env, store.schedules[..n], turns[..n]), TurnRuns(env, s, t);
    PolledNames(env, store, turns, n, before);
    TurnExact(env, before, n, t);
    KeepLastAppend(store.runs + runs, more);
    assert store.runs + runs + more == store.runs + (runs + more);
    assert store.schedules[..n + 1][..n] == store.schedules[..n] && turns[..n + 1][..n] == turns[..n];
    assert PollRuns(env, store.schedules[..n + 1], turns[..n + 1]) == runs + more;
    hide PollRuns;
  }

  lemma {:induction false} PollReaches(env: Env, store: Store, turns: seq<Turn>, n: nat)
    requires UniqueNames(store.schedules) && |turns| == |store.schedules| && n <= |turns| && |store.runs| <= HISTORY
    ensures PolledUpTo(env, store, turns, n, PollLoaded(env, store, store.schedules[..n], turns[..n]))
  {
    if n == 0 {
      assert store.runs + [] == store.runs;
    } else {
      PollReaches(env, store, turns, n - 1);
      var loaded, taken := store.schedules[..n], turns[..n];
      assert loaded[..n - 1] == store.schedules[..n - 1] && taken[..n - 1] == turns[..n - 1];
      hide PolledUpTo, TurnOf;
      PolledPush(env, store, turns, n - 1, PollLoaded(env, store, loaded[..n - 1], taken[..n - 1]));
    }
  }

  /**
   * Such a poll takes every schedule once, whatever the uploads do: one that is due is marked and
   * its run appended, however many ticks it missed; the others stay as they were.
   */
  lemma PollExact(env: Env, store: Store, turns: seq<Turn>)
    requires UniqueNames(store.schedules) && |turns| == |store.schedules| && |store.runs| <= HISTORY
    ensures var after := PollLoaded(env, store, store.schedules, turns);
      && |after.schedules| == |store.schedules|
      && (forall j :: 0 <= j < |turns| ==> after.schedules[j] == AfterTurn(env, store.schedules[j], turns[j]))
      && after.runs == KeepLast(store.runs + PollRuns(env, store.schedules, turns))
  {
    PollReaches(env, store, turns, |turns|);
    assert store.schedules[..|turns|] == store.schedules && turns[..|turns|] == turns;
    hide PollLoaded, AfterTurn, PollRuns, KeepLast;
  }

  /** Exactly one of the appended runs belongs to a schedule that is due, and none to one that is not. */
  lemma {:induction false} PollRunsOnce(env: Env, schedules: seq<Schedule>, turns: seq<Turn>, i: nat)
    requires UniqueNames(schedules) && |turns| == |schedules| && i < |schedules|
    ensures var runs := PollRuns(env, schedules, turns);
      if IsDue(env, schedules[i], turns[i].check) then HasOneRunOf(runs, schedules[i].name)
      else NoRunOf(runs, schedules[i].name)
  {
    hide IsDue, ResourceSummary;
    var last := |schedules| - 1;
    var init, runs := PollRuns(env, schedules[..last], turns[..last]), PollRuns(env, schedules, turns);
    if i < last {
      PollRunsOnce(env, schedules[..last], turns[..last], i);
      if IsDue(env, schedules[i], turns[i].check) {
        var k :| OnlyRunOf(init, k, schedules[i].name);
        assert OnlyRunOf(runs, k, schedules[i].name);
      }
    } else {
      OthersRuns(env, schedules[..last], turns[..last], schedules[last].name);
      if IsDue(env, schedules[last], turns[last].check) {
        assert OnlyRunOf(runs, |init|, schedules[last].name);
      }
    }
  }

  ghost predicate HasOneRunOf(runs: seq<Run>, name: string) {
    exists k :: OnlyRunOf(runs, k, name)
  }

  ghost predicate OnlyRunOf(runs: seq<Run>, k: nat, name: string) {
    k < |runs| && forall j :: 0 <= j < |runs| ==> (runs[j].scheduleName == name <==> j == k)
  }

  ghost predicate NoRunOf(runs: seq<Run>, name: string) {
    forall j :: 0 <= j < |runs| ==> runs[j].scheduleName != name
  }

  lemma {:induction false} OthersRuns(env: Env, schedules: seq<Schedule>, turns: seq<Turn>, name: string)
    requires |turns| == |schedules| && forall i :: 0 <= i < |schedules| ==> schedules[i].name != name
    ensures NoRunOf(PollRuns(env, schedules, turns), name)
  {
    hide IsDue;
    if schedules == [] {
    } else {
      var last := |schedules| - 1;
      OthersRuns(env, schedules[..last], turns[..last], name);
    }
  }

  /** After it no schedule that is not paused has an unserved tick behind the clock of its check. */
  lemma PollCatchesUp(env: Env, store: Store, turns: seq<Turn>, i: nat, k: Time)
    requires IsCron(env) && UniqueNames(store.schedules) && |store.runs| <= HISTORY
    requires |turns| == |store.schedules| && i < |turns|
    requires Runnable(env, store.schedules[i]) && !store.schedules[i].paused && turns[i].check <= turns[i].now
    requires env.tick(store.schedules[i].cron, k) && k <= turns[i].check
    ensures var after := PollLoaded(env, store, store.schedules, turns).schedules;
      i < |after| && k <= Baseline(after[i])
  {
    PollExact(env, store, turns);
    DueExactly(env, store.schedules[i], turns[i].check);
    hide IsDue, PollLoaded, PollRuns, IsCron, Runnable;
  }

  // ── The handlers and the worker ──────────────────────────────────────────

  class BackupStore {
    var schedules: seq<Schedule>
    var runs: seq<Run>

    function Contents(): Store
      reads this
    {
      Store(schedules, runs)
    }

    constructor ()
      ensures Contents() == Store([], [])
    {
      schedules, runs := [], [];
    }

    method Position(name: string) returns (i: nat)
      ensures i == IndexOf(schedules, name)
    {
      i := 0;
      while i < |schedules| && schedules[i].name != name
        invariant i <= |schedules| && forall j :: 0 <= j < i ==> schedules[j].name != name
      {
        i := i + 1;
      }
    }

    /** The run is marked before the upload starts, so a failed upload is not tried again before the next tick. */
    method TriggerScheduleRun(
        env: Env, name: string, manual: bool, now: Time, upload: Option<Uploaded>) returns (reply: Reply)
      modifies this
      ensures var o := Trigger(env, old(Contents()), name, manual, now, upload);
        Contents() == o.store && reply == o.reply
      ensures TriggerMeans(env, old(Contents()), Contents(), reply, name, manual, now, upload)
    {
      TriggerExact(env, Contents(), name, manual, now, upload);
      hide TriggerMeans, RunOf;
      var i := Position(name);
      if i == |schedules| {
        return NotFound;
      }
      if schedules[i].paused {
        return Paused;
      }
      var snapshot := schedules[i];
      schedules := schedules[i := schedules[i].(lastRunAt := Some(now), updatedAt := now)];
      var run := RunOf(env, snapshot, manual, now, upload);
      runs := runs + [run];
      if |runs| > HISTORY {
        var keepFrom := |runs| - HISTORY;
        runs := runs[keepFrom..];
      }
      reply := if upload.Some? then Created(run.name) else UploadFailed;
    }

    method RunDueSchedules(env: Env, turns: seq<Turn>)
      requires |turns| == |schedules|
      modifies this
      ensures Contents() == PollLoaded(env, old(Contents()), old(schedules), turns)
    {
      var loaded := schedules;
      for i := 0 to |loaded|
        invariant Contents() == PollLoaded(env, old(Contents()), loaded[..i], turns[..i])
      {
        assert loaded[..i + 1][..i] == loaded[..i] && turns[..i + 1][..i] == turns[..i];
        hide IsDue, Trigger;
        if !IsDue(env, loaded[i], turns[i].check) {
          continue;
        }
        var _ := TriggerScheduleRun(env, loaded[i].name, false, turns[i].now, turns[i].upload);
      }
      assert loaded[..|loaded|] == loaded && turns[..|turns|] == turns;
    }

    /** The schedule of that name has what the request says; one that was there keeps the time of its last run. */
    ghost predicate Saves(before: seq<Schedule>, req: Request, name: string, cron: string, now: Time)
      reads this
    {
      if exists s :: s in before && s.name == name then
        exists i :: 0 <= i < |before| && before[i].name == name && (forall j :: 0 <= j < i ==> before[j].name != name)
          && schedules == before[i := Schedule(name, cron, req.timezone, req.paused, req.includeNamespaces,
                                               req.excludeNamespaces, now, before[i].lastRunAt)]
      else
        schedules == before + [Schedule(name, cron, req.timezone, req.paused, req.includeNamespaces,
                                        req.excludeNamespaces, now, None)]
    }

    method CreateBackupSchedule(env: Env, req: Request, now: Time) returns (reply: Reply)
      modifies this
      ensures var o := Upsert(env, old(Contents()), req, now); Contents() == o.store && reply == o.reply
      ensures runs == old(runs) && (reply == Invalid ==> schedules == old(schedules))
      ensures var cron := NormalizeCron(Trim(req.cron));
        reply == if Trim(req.name) != "" && cron.Some? && env.parses(cron.value) then Saved else Invalid
      ensures reply == Saved ==>
        Saves(old(schedules), req, Trim(req.name), NormalizeCron(Trim(req.cron)).value, now)
    {
      hide NormalizeCron, Trim;
      var name := Trim(req.name);
      var cron := NormalizeCron(Trim(req.cron));
      if name == "" || cron.None? || !env.parses(cron.value) {
        return Invalid;
      }
      var i := Position(name);
      if i < |schedules| {
        assert schedules[i] in schedules;
        schedules := schedules[i := Edited(schedules[i], req, cron.value, now)];
      } else {
        schedules := schedules + [Schedule(name, cron.value, req.timezone, req.paused, req.includeNamespaces,
                                           req.excludeNamespaces, now, None)];
      }
      reply := Saved;
    }

    method DeleteBackupSchedule(name: string)
      modifies this`schedules
      ensures Contents() == Delete(old(Contents()), name) && (Trim(name) == "" ==> schedules == old(schedules))
      ensures Trim(name) != "" ==>
        exists at :: KeepsOthers(old(schedules), schedules, at, Trim(name))
    {
      if Trim(name) != "" {
        ghost var at := WithoutKeeps(schedules, Trim(name));
        schedules := Without(schedules, Trim(name));
      }
    }
  }
}
